/** The WHERE builders of PostgreSQLRepository: GetValoresComFiltrosAsync
    (name and date predicates, blank names skipped) and
    GetValoresComJoinsAsync (optional integer codes). Each appends one
    condition text and one parameter per given predicate, in lockstep. */
module PostgresFilters {
  import opened Wrappers
  import opened Dates
  import opened Sequences
  import opened Models
  import opened Strings

  // ---------------------------------------------------------------------------
  // Conditions and parameters

  /** The columns of "Valor" a condition can compare. */
  datatype Column = FamiliaColumn | SerieColumn | AtributoColumn | ArquivoColumn | DataColumn

  function ColumnName(c: Column): string
  {
    match c
    case FamiliaColumn => "NomeFamilia"
    case SerieColumn => "NomeSerie"
    case AtributoColumn => "NomeAtributo"
    case ArquivoColumn => "NomeArquivo"
    case DataColumn => "DataInicioVigencia"
  }

  /** The position of a column in both builders' fixed order. */
  function Rank(c: Column): nat
  {
    match c
    case FamiliaColumn => 0
    case SerieColumn => 1
    case AtributoColumn => 2
    case ArquivoColumn => 3
    case DataColumn => 4
  }

  /** The value bound to an NpgsqlParameter. */
  datatype ParamValue = TextValue(text: string) | DateValue(date: DateOnly) | IntValue(n: int)

  /** An NpgsqlParameter: a placeholder name and its value. */
  datatype Parameter = Parameter(name: string, value: ParamValue)

  /** One `column = @placeholder` comparison together with its parameter. */
  datatype Clause = Clause(column: Column, parameter: Parameter)

  function ParameterOf(c: Clause): Parameter { c.parameter }

  /** The condition text GetValoresComFiltrosAsync appends: a quoted column. */
  function QuotedText(c: Clause): string
  {
    "\"" + ColumnName(c.column) + "\" = " + c.parameter.name
  }

  /** The condition text GetValoresComJoinsAsync appends: a column of alias v. */
  function AliasedText(c: Clause): string
  {
    "v." + ColumnName(c.column) + " = " + c.parameter.name
  }

  /** `conditions.Any() ? "WHERE " + string.Join(" AND ", conditions) : ""`. */
  function WhereClause(conditions: seq<string>): string
  {
    if |conditions| > 0 then "WHERE " + Join(" AND ", conditions) else ""
  }

  /** The WHERE clause is present exactly when some condition was appended. */
  lemma WhereClauseEmptyIff(conditions: seq<string>)
    ensures WhereClause(conditions) == "" <==> conditions == []
    ensures conditions != [] ==> WhereClause(conditions)[..6] == "WHERE "
  {
    if conditions != [] {
      assert |WhereClause(conditions)| >= 6;
    }
  }

  // ---------------------------------------------------------------------------
  // GetValoresComFiltrosAsync

  /** The optional arguments of GetValoresComFiltrosAsync. */
  datatype ValorFilter = ValorFilter(
    nomeFamilia: Option<string>,
    nomeSerie: Option<string>,
    nomeAtributo: Option<string>,
    dataInicioVigencia: Option<DateOnly>)

  const NoFilter := ValorFilter(None, None, None, None)

  /** A name predicate contributes unless it is null, empty or white space. */
  function TextClause(column: Column, name: string, arg: Option<string>): seq<Clause>
  {
    if IsNullOrWhiteSpace(arg) then [] else [Clause(column, Parameter(name, TextValue(arg.value)))]
  }

  function DateClause(column: Column, name: string, arg: Option<DateOnly>): seq<Clause>
  {
    if arg.Some? then [Clause(column, Parameter(name, DateValue(arg.value)))] else []
  }

  /** The clauses of a filter, in the builder's order. */
  function Clauses(f: ValorFilter): seq<Clause>
  {
    TextClause(FamiliaColumn, "@nomeFamilia", f.nomeFamilia)
    + TextClause(SerieColumn, "@nomeSerie", f.nomeSerie)
    + TextClause(AtributoColumn, "@nomeAtributo", f.nomeAtributo)
    + DateClause(DataColumn, "@dataInicioVigencia", f.dataInicioVigencia)
  }

  /** Whether the filter constrains a column. */
  predicate Given(f: ValorFilter, c: Column)
  {
    match c
    case FamiliaColumn => !IsNullOrWhiteSpace(f.nomeFamilia)
    case SerieColumn => !IsNullOrWhiteSpace(f.nomeSerie)
    case AtributoColumn => !IsNullOrWhiteSpace(f.nomeAtributo)
    case ArquivoColumn => false
    case DataColumn => f.dataInicioVigencia.Some?
  }

  /** The argument the filter gives for a column it constrains. */
  function Argument(f: ValorFilter, c: Column): ParamValue
    requires Given(f, c)
  {
    match c
    case FamiliaColumn => TextValue(f.nomeFamilia.value)
    case SerieColumn => TextValue(f.nomeSerie.value)
    case AtributoColumn => TextValue(f.nomeAtributo.value)
    case DataColumn => DateValue(f.dataInicioVigencia.value)
  }

  /** The placeholder name GetValoresComFiltrosAsync binds for a column. */
  function FiltroName(c: Column): string
  {
    match c
    case FamiliaColumn => "@nomeFamilia"
    case SerieColumn => "@nomeSerie"
    case AtributoColumn => "@nomeAtributo"
    case ArquivoColumn => "@nomeArquivo"
    case DataColumn => "@dataInicioVigencia"
  }

  /** One guarded append of the builders, seen against the clauses so far. */
  lemma AppendStep(done: seq<Clause>, extra: seq<Clause>, text: Clause -> string,
                   c0: seq<string>, p0: seq<Parameter>, c1: seq<string>, p1: seq<Parameter>)
    requires c0 == Each(done, text) && p0 == Each(done, ParameterOf)
    requires |extra| <= 1
    requires extra == [] ==> c1 == c0 && p1 == p0
    requires extra != [] ==> c1 == c0 + [text(extra[0])] && p1 == p0 + [extra[0].parameter]
    ensures c1 == Each(done + extra, text) && p1 == Each(done + extra, ParameterOf)
  {
    EachAppend(done, extra, text);
    EachAppend(done, extra, ParameterOf);
  }

  /** GetValoresComFiltrosAsync, lines building the query: the conditions, the
      parameters and the WHERE clause. */
  method BuildFiltros(f: ValorFilter) returns (conditions: seq<string>, parameters: seq<Parameter>, whereClause: string)
    ensures conditions == Each(Clauses(f), QuotedText)
    ensures parameters == Each(Clauses(f), ParameterOf)
    ensures whereClause == WhereClause(conditions)
  {
    conditions, parameters := [], [];
    ghost var c0, p0 := conditions, parameters;
    if !IsNullOrWhiteSpace(f.nomeFamilia) {
      var p := Parameter("@nomeFamilia", TextValue(f.nomeFamilia.value));
      conditions := conditions + [QuotedText(Clause(FamiliaColumn, p))];
      parameters := parameters + [p];
    }
    AppendStep([], TextClause(FamiliaColumn, "@nomeFamilia", f.nomeFamilia), QuotedText, c0, p0, conditions, parameters);
    ghost var done := [] + TextClause(FamiliaColumn, "@nomeFamilia", f.nomeFamilia);
    c0, p0 := conditions, parameters;
    if !IsNullOrWhiteSpace(f.nomeSerie) {
      var p := Parameter("@nomeSerie", TextValue(f.nomeSerie.value));
      conditions := conditions + [QuotedText(Clause(SerieColumn, p))];
      parameters := parameters + [p];
    }
    AppendStep(done, TextClause(SerieColumn, "@nomeSerie", f.nomeSerie), QuotedText, c0, p0, conditions, parameters);
    done := done + TextClause(SerieColumn, "@nomeSerie", f.nomeSerie);
    c0, p0 := conditions, parameters;
    if !IsNullOrWhiteSpace(f.nomeAtributo) {
      var p := Parameter("@nomeAtributo", TextValue(f.nomeAtributo.value));
      conditions := conditions + [QuotedText(Clause(AtributoColumn, p))];
      parameters := parameters + [p];
    }
    AppendStep(done, TextClause(AtributoColumn, "@nomeAtributo", f.nomeAtributo), QuotedText, c0, p0, conditions, parameters);
    done := done + TextClause(AtributoColumn, "@nomeAtributo", f.nomeAtributo);
    c0, p0 := conditions, parameters;
    if f.dataInicioVigencia.Some? {
      var p := Parameter("@dataInicioVigencia", DateValue(f.dataInicioVigencia.value));
      conditions := conditions + [QuotedText(Clause(DataColumn, p))];
      parameters := parameters + [p];
    }
    AppendStep(done, DateClause(DataColumn, "@dataInicioVigencia", f.dataInicioVigencia), QuotedText, c0, p0, conditions, parameters);
    done := done + DateClause(DataColumn, "@dataInicioVigencia", f.dataInicioVigencia);
    assert done == Clauses(f);
    whereClause := if |conditions| > 0 then "WHERE " + Join(" AND ", conditions) else "";
  }

  /** The clauses are in the order Familia, Serie, Atributo, DataInicio, one
      for each column the filter constrains and none for any other, each
      binding the filter's argument under that column's placeholder. */
  lemma ClausesProps(f: ValorFilter)
    ensures forall i, j :: 0 <= i < j < |Clauses(f)| ==> Rank(Clauses(f)[i].column) < Rank(Clauses(f)[j].column)
    ensures forall c :: Given(f, c) <==> exists i :: 0 <= i < |Clauses(f)| && Clauses(f)[i].column == c
    ensures forall i :: 0 <= i < |Clauses(f)| ==>
      Given(f, Clauses(f)[i].column) &&
      Clauses(f)[i].parameter == Parameter(FiltroName(Clauses(f)[i].column), Argument(f, Clauses(f)[i].column))
  {
    var a := TextClause(FamiliaColumn, "@nomeFamilia", f.nomeFamilia);
    var b := TextClause(SerieColumn, "@nomeSerie", f.nomeSerie);
    var c := TextClause(AtributoColumn, "@nomeAtributo", f.nomeAtributo);
    var d := DateClause(DataColumn, "@dataInicioVigencia", f.dataInicioVigencia);
    var cl := Clauses(f);
    assert cl == a + b + c + d;
    forall col | Given(f, col) ensures exists i :: 0 <= i < |cl| && cl[i].column == col {
      match col
      case FamiliaColumn => assert cl[0].column == col;
      case SerieColumn => assert cl[|a|].column == col;
      case AtributoColumn => assert cl[|a| + |b|].column == col;
      case DataColumn => assert cl[|a| + |b| + |c|].column == col;
    }
  }

  /** Lockstep: condition i names the column of clause i and the placeholder of parameter i. */
  lemma FiltrosLockstep(f: ValorFilter)
    ensures |Each(Clauses(f), QuotedText)| == |Each(Clauses(f), ParameterOf)| == |Clauses(f)|
    ensures forall i :: 0 <= i < |Clauses(f)| ==>
      Each(Clauses(f), QuotedText)[i]
        == "\"" + ColumnName(Clauses(f)[i].column) + "\" = " + Each(Clauses(f), ParameterOf)[i].name
  {
  }

  /** The unfiltered query: no predicate given, no condition, no WHERE clause. */
  lemma FiltrosEmptyIff(f: ValorFilter)
    ensures Clauses(f) == [] <==> forall c :: !Given(f, c)
    ensures WhereClause(Each(Clauses(f), QuotedText)) == "" <==> forall c :: !Given(f, c)
  {
    ClausesProps(f);
    WhereClauseEmptyIff(Each(Clauses(f), QuotedText));
    if Clauses(f) != [] {
      assert Given(f, Clauses(f)[0].column);
    }
  }

  // ---------------------------------------------------------------------------
  // What a filtered query selects

  /** The value a row holds in a column. */
  function ColumnValue(v: ValorPostgres, c: Column): ParamValue
  {
    match c
    case FamiliaColumn => TextValue(v.nomeFamilia)
    case SerieColumn => TextValue(v.nomeSerie)
    case AtributoColumn => TextValue(v.nomeAtributo)
    case ArquivoColumn => TextValue(v.nomeArquivo)
    case DataColumn => DateValue(v.dataInicioVigencia)
  }

  /** The row passes the WHERE clause: every condition holds (no condition: every row). */
  predicate RowMatches(v: ValorPostgres, clauses: seq<Clause>)
  {
    forall i :: 0 <= i < |clauses| ==> ColumnValue(v, clauses[i].column) == clauses[i].parameter.value
  }

  /** The filter read as a predicate on rows, field by field. */
  predicate Satisfies(v: ValorPostgres, f: ValorFilter)
  {
    (IsNullOrWhiteSpace(f.nomeFamilia) || v.nomeFamilia == f.nomeFamilia.value)
    && (IsNullOrWhiteSpace(f.nomeSerie) || v.nomeSerie == f.nomeSerie.value)
    && (IsNullOrWhiteSpace(f.nomeAtributo) || v.nomeAtributo == f.nomeAtributo.value)
    && (f.dataInicioVigencia.None? || v.dataInicioVigencia == f.dataInicioVigencia.value)
  }

  /** The built WHERE clause selects exactly the rows satisfying the filter. */
  lemma RowMatchesIff(v: ValorPostgres, f: ValorFilter)
    ensures RowMatches(v, Clauses(f)) <==> Satisfies(v, f)
  {
    var a := TextClause(FamiliaColumn, "@nomeFamilia", f.nomeFamilia);
    var b := TextClause(SerieColumn, "@nomeSerie", f.nomeSerie);
    var c := TextClause(AtributoColumn, "@nomeAtributo", f.nomeAtributo);
    var d := DateClause(DataColumn, "@dataInicioVigencia", f.dataInicioVigencia);
    var cl := Clauses(f);
    assert cl == a + b + c + d;
    if RowMatches(v, cl) {
      if !IsNullOrWhiteSpace(f.nomeFamilia) { assert cl[0] == a[0]; }
      if !IsNullOrWhiteSpace(f.nomeSerie) { assert cl[|a|] == b[0]; }
      if !IsNullOrWhiteSpace(f.nomeAtributo) { assert cl[|a| + |b|] == c[0]; }
      if f.dataInicioVigencia.Some? { assert cl[|a| + |b| + |c|] == d[0]; }
    }
    if Satisfies(v, f) {
      forall i | 0 <= i < |cl| ensures ColumnValue(v, cl[i].column) == cl[i].parameter.value {
        if i < |a| { assert cl[i] == a[i]; }
        else if i < |a| + |b| { assert cl[i] == b[i - |a|]; }
        else if i < |a| + |b| + |c| { assert cl[i] == c[i - |a| - |b|]; }
        else { assert cl[i] == d[i - |a| - |b| - |c|]; }
      }
    }
  }

  /** g's given predicates are among f's, with the same arguments. */
  predicate Narrows(f: ValorFilter, g: ValorFilter)
  {
    (IsNullOrWhiteSpace(g.nomeFamilia) || f.nomeFamilia == g.nomeFamilia)
    && (IsNullOrWhiteSpace(g.nomeSerie) || f.nomeSerie == g.nomeSerie)
    && (IsNullOrWhiteSpace(g.nomeAtributo) || f.nomeAtributo == g.nomeAtributo)
    && (g.dataInicioVigencia.None? || f.dataInicioVigencia == g.dataInicioVigencia)
  }

  /** Adding predicates never selects more rows. */
  lemma NarrowerFilterSelectsFewer(v: ValorPostgres, f: ValorFilter, g: ValorFilter)
    requires Narrows(f, g)
    ensures RowMatches(v, Clauses(f)) ==> RowMatches(v, Clauses(g))
  {
    RowMatchesIff(v, f);
    RowMatchesIff(v, g);
  }

  // ---------------------------------------------------------------------------
  // GetValoresComJoinsAsync

  /** The optional codes of GetValoresComJoinsAsync. */
  datatype JoinFilter = JoinFilter(
    codigoFamilia: Option<int>,
    codigoSerie: Option<int>,
    codigoAtributo: Option<int>,
    codigoArquivo: Option<int>)

  function IntClause(column: Column, name: string, arg: Option<int>): seq<Clause>
  {
    if arg.Some? then [Clause(column, Parameter(name, IntValue(arg.value)))] else []
  }

  /** The clauses of the join query, in the builder's order. */
  function JoinClauses(f: JoinFilter): seq<Clause>
  {
    IntClause(FamiliaColumn, "@familia", f.codigoFamilia)
    + IntClause(SerieColumn, "@serie", f.codigoSerie)
    + IntClause(AtributoColumn, "@atributo", f.codigoAtributo)
    + IntClause(ArquivoColumn, "@arquivo", f.codigoArquivo)
  }

  /** The code the join filter gives for a column, if any. */
  function Code(f: JoinFilter, c: Column): Option<int>
  {
    match c
    case FamiliaColumn => f.codigoFamilia
    case SerieColumn => f.codigoSerie
    case AtributoColumn => f.codigoAtributo
    case ArquivoColumn => f.codigoArquivo
    case DataColumn => None
  }

  function JoinName(c: Column): string
  {
    match c
    case FamiliaColumn => "@familia"
    case SerieColumn => "@serie"
    case AtributoColumn => "@atributo"
    case ArquivoColumn => "@arquivo"
    case DataColumn => "@data"
  }

  /** GetValoresComJoinsAsync, lines building the query. */
  method BuildJoinFiltros(f: JoinFilter) returns (conditions: seq<string>, parameters: seq<Parameter>, whereClause: string)
    ensures conditions == Each(JoinClauses(f), AliasedText)
    ensures parameters == Each(JoinClauses(f), ParameterOf)
    ensures whereClause == WhereClause(conditions)
  {
    conditions, parameters := [], [];
    ghost var c0, p0 := conditions, parameters;
    if f.codigoFamilia.Some? {
      var p := Parameter("@familia", IntValue(f.codigoFamilia.value));
      conditions := conditions + [AliasedText(Clause(FamiliaColumn, p))];
      parameters := parameters + [p];
    }
    AppendStep([], IntClause(FamiliaColumn, "@familia", f.codigoFamilia), AliasedText, c0, p0, conditions, parameters);
    ghost var done := [] + IntClause(FamiliaColumn, "@familia", f.codigoFamilia);
    c0, p0 := conditions, parameters;
    if f.codigoSerie.Some? {
      var p := Parameter("@serie", IntValue(f.codigoSerie.value));
      conditions := conditions + [AliasedText(Clause(SerieColumn, p))];
      parameters := parameters + [p];
    }
    AppendStep(done, IntClause(SerieColumn, "@serie", f.codigoSerie), AliasedText, c0, p0, conditions, parameters);
    done := done + IntClause(SerieColumn, "@serie", f.codigoSerie);
    c0, p0 := conditions, parameters;
    if f.codigoAtributo.Some? {
      var p := Parameter("@atributo", IntValue(f.codigoAtributo.value));
      conditions := conditions + [AliasedText(Clause(AtributoColumn, p))];
      parameters := parameters + [p];
    }
    AppendStep(done, IntClause(AtributoColumn, "@atributo", f.codigoAtributo), AliasedText, c0, p0, conditions, parameters);
    done := done + IntClause(AtributoColumn, "@atributo", f.codigoAtributo);
    c0, p0 := conditions, parameters;
    if f.codigoArquivo.Some? {
      var p := Parameter("@arquivo", IntValue(f.codigoArquivo.value));
      conditions := conditions + [AliasedText(Clause(ArquivoColumn, p))];
      parameters := parameters + [p];
    }
    AppendStep(done, IntClause(ArquivoColumn, "@arquivo", f.codigoArquivo), AliasedText, c0, p0, conditions, parameters);
    done := done + IntClause(ArquivoColumn, "@arquivo", f.codigoArquivo);
    assert done == JoinClauses(f);
    whereClause := if |conditions| > 0 then "WHERE " + Join(" AND ", conditions) else "";
  }

  /** One clause per code that has a value, in the order familia, serie,
      atributo, arquivo, binding that code under the column's placeholder. */
  lemma JoinClausesProps(f: JoinFilter)
    ensures forall i, j :: 0 <= i < j < |JoinClauses(f)| ==> Rank(JoinClauses(f)[i].column) < Rank(JoinClauses(f)[j].column)
    ensures forall c :: Code(f, c).Some? <==> exists i :: 0 <= i < |JoinClauses(f)| && JoinClauses(f)[i].column == c
    ensures forall i :: 0 <= i < |JoinClauses(f)| ==>
      Code(f, JoinClauses(f)[i].column).Some? &&
      JoinClauses(f)[i].parameter == Parameter(JoinName(JoinClauses(f)[i].column), IntValue(Code(f, JoinClauses(f)[i].column).value))
  {
    var a := IntClause(FamiliaColumn, "@familia", f.codigoFamilia);
    var b := IntClause(SerieColumn, "@serie", f.codigoSerie);
    var c := IntClause(AtributoColumn, "@atributo", f.codigoAtributo);
    var d := IntClause(ArquivoColumn, "@arquivo", f.codigoArquivo);
    var cl := JoinClauses(f);
    assert cl == a + b + c + d;
    forall col | Code(f, col).Some? ensures exists i :: 0 <= i < |cl| && cl[i].column == col {
      match col
      case FamiliaColumn => assert cl[0].column == col;
      case SerieColumn => assert cl[|a|].column == col;
      case AtributoColumn => assert cl[|a| + |b|].column == col;
      case ArquivoColumn => assert cl[|a| + |b| + |c|].column == col;
    }
  }
}
