/** BenchmarkPostgresService: the insert path (reference rows deduplicated
    by name and written first, then one upsert per fact), the read loops that
    enumerate values and their cross products and concatenate what each
    repository call answers, and the generator of test data. */
module PostgresService {
  import opened Wrappers
  import opened Dates
  import opened Sequences
  import opened Models
  import opened PostgresFilters
  import opened PostgresRepository

  // ---------------------------------------------------------------------------
  // Insert

  function ArquivoOf(x: AggregateValorPostgres): Arquivo { x.arquivo }
  function FamiliaOf(x: AggregateValorPostgres): Familia { x.familia }
  function SerieOf(x: AggregateValorPostgres): Serie { x.serie }
  function AtributoOf(x: AggregateValorPostgres): Atributo { x.atributo }
  function ValorOf(x: AggregateValorPostgres): ValorPostgres { x.valor }

  function ArquivoKey(a: Arquivo): string { a.nomeArquivo }
  function FamiliaKey(f: Familia): string { f.nomeFamilia }
  function SerieKey(s: Serie): string { s.nomeSerie }
  function AtributoKey(a: Atributo): string { a.nomeAtributo }

  /** listaArquivos, listaFamilias, listaSeries, listaAtributos: the entities
      of the aggregates, the first one per name. */
  function ListaArquivos(vs: seq<AggregateValorPostgres>): seq<Arquivo> { DistinctBy(Each(vs, ArquivoOf), ArquivoKey) }
  function ListaFamilias(vs: seq<AggregateValorPostgres>): seq<Familia> { DistinctBy(Each(vs, FamiliaOf), FamiliaKey) }
  function ListaSeries(vs: seq<AggregateValorPostgres>): seq<Serie> { DistinctBy(Each(vs, SerieOf), SerieKey) }
  function ListaAtributos(vs: seq<AggregateValorPostgres>): seq<Atributo> { DistinctBy(Each(vs, AtributoOf), AtributoKey) }

  function ArquivoStatement(a: Arquivo): Statement { InsertArquivoStatement(a) }
  function FamiliaStatement(f: Familia): Statement { InsertFamiliaStatement(f) }
  function SerieStatement(s: Serie): Statement { InsertSerieStatement(s) }
  function AtributoStatement(a: Atributo): Statement { InsertAtributoStatement(a) }

  /** The statements Insert executes, in order. */
  function InsertLog(vs: seq<AggregateValorPostgres>): seq<Statement>
  {
    Each(ListaArquivos(vs), ArquivoStatement)
    + Each(ListaFamilias(vs), FamiliaStatement)
    + Each(ListaSeries(vs), SerieStatement)
    + Each(ListaAtributos(vs), AtributoStatement)
    + Each(Each(vs, ValorOf), UpsertOf)
  }

  /** A reference table after inserting a list of rows one by one. */
  function InsertAllIfAbsent<V>(table: map<string, V>, rows: seq<V>, key: V -> string): map<string, V>
  {
    if |rows| == 0 then table
    else InsertIfAbsent(InsertAllIfAbsent(table, rows[..|rows| - 1], key), key(rows[|rows| - 1]), rows[|rows| - 1])
  }

  /** What a list of ON CONFLICT DO NOTHING inserts leaves in a reference
      table: every stored row unchanged, and under each name that was not
      stored the first listed row carrying it. */
  ghost predicate AddsFirstOccurrences<V>(table: map<string, V>, r: map<string, V>, rows: seq<V>, key: V -> string)
  {
    && r.Keys == table.Keys + KeySet(rows, key)
    && (forall n :: n in table ==> r[n] == table[n])
    && (forall n :: n in r && n !in table ==>
          exists i :: 0 <= i < |rows| && IsFirst(rows, key, i) && key(rows[i]) == n && r[n] == rows[i])
  }

  lemma {:induction false} InsertAllIfAbsentSpec<V>(table: map<string, V>, rows: seq<V>, key: V -> string)
    ensures AddsFirstOccurrences(table, InsertAllIfAbsent(table, rows, key), rows, key)
  {
    if |rows| > 0 {
      var m := |rows| - 1;
      InsertAllIfAbsentSpec(table, rows[..m], key);
      InsertAllIfAbsentSnoc(table, InsertAllIfAbsent(table, rows[..m], key), rows, key);
    }
  }

  /** One more insert at the end of the list keeps AddsFirstOccurrences. */
  lemma InsertAllIfAbsentSnoc<V>(table: map<string, V>, mid: map<string, V>, rows: seq<V>, key: V -> string)
    requires |rows| > 0
    requires AddsFirstOccurrences(table, mid, rows[..|rows| - 1], key)
    ensures AddsFirstOccurrences(table, InsertIfAbsent(mid, key(rows[|rows| - 1]), rows[|rows| - 1]), rows, key)
  {
    var m := |rows| - 1;
    var before, last := rows[..m], rows[m];
    var r := InsertIfAbsent(mid, key(last), last);
    KeySetSnoc(rows, key, m);
    assert rows[..m + 1] == rows;
    assert r.Keys == table.Keys + KeySet(rows, key);
    forall n | n in r && n !in table
      ensures exists i :: 0 <= i < |rows| && IsFirst(rows, key, i) && key(rows[i]) == n && r[n] == rows[i]
    {
      if n in mid {
        var i :| 0 <= i < |before| && IsFirst(before, key, i) && key(before[i]) == n && mid[n] == before[i];
        IsFirstOfPrefix(rows, key, m, i);
      } else {
        IsFirstIff(rows, key, m);
      }
    }
  }

  /** The same for a list deduplicated by name first, as Insert writes them:
      each new name holds the first element of the whole list carrying it. */
  lemma InsertDistinctSpec<V>(table: map<string, V>, xs: seq<V>, key: V -> string)
    ensures AddsFirstOccurrences(table, InsertAllIfAbsent(table, DistinctBy(xs, key), key), xs, key)
  {
    var d := DistinctBy(xs, key);
    var r := InsertAllIfAbsent(table, d, key);
    InsertAllIfAbsentSpec(table, d, key);
    DistinctByProps(xs, key);
    DistinctByIsFirstOccurrences(xs, key);
    FirstOccurrencesAreFirst(xs, key, |xs|);
    forall n | n in r && n !in table
      ensures exists p :: 0 <= p < |xs| && IsFirst(xs, key, p) && key(xs[p]) == n && r[n] == xs[p]
    {
      var i :| 0 <= i < |d| && IsFirst(d, key, i) && key(d[i]) == n && r[n] == d[i];
      var p :| 0 <= p < |xs| && IsFirst(xs, key, p) && d[i] == xs[p];
    }
  }

  lemma UpsertAllSnoc(rows: seq<ValorPostgres>, done: seq<ValorPostgres>, v: ValorPostgres)
    ensures UpsertAll(rows, done + [v]) == Upsert(UpsertAll(rows, done), v)
  {
    assert (done + [v])[..|done|] == done;
  }

  // ---------------------------------------------------------------------------
  // Reads

  /** The repository call one iteration of a read loop makes. */
  datatype Consulta =
    | PorChave(nomeSerie: string, nomeAtributo: string, dataInicioVigencia: DateOnly)   // GetValorAsync
    | Filtrada(filtro: ValorFilter)                                                     // GetValoresComFiltrosAsync

  /** What one call adds to the result list: the row GetValorAsync found (a
      null result adds nothing) or every row the filtered select read. */
  function Answer(rows: seq<ValorPostgres>, c: Consulta): seq<ValorPostgres>
  {
    match c
    case PorChave(s, a, d) =>
      var found := FindValor(rows, s, a, d);
      if found.Some? then [found.value] else []
    case Filtrada(f) => Selected(rows, f)
  }

  function AnswerOf(rows: seq<ValorPostgres>): Consulta -> seq<ValorPostgres>
  {
    c => Answer(rows, c)
  }

  /** A loop's result list: the answers of its calls, concatenated in call order. */
  function Answers(rows: seq<ValorPostgres>, calls: seq<Consulta>): seq<ValorPostgres>
  {
    Flatten(Each(calls, AnswerOf(rows)))
  }

  /** The names and dates the read loops enumerate: each value once, in first-seen order. */
  function NomeFamilia(x: AggregateValorPostgres): string { x.valor.nomeFamilia }
  function NomeSerie(x: AggregateValorPostgres): string { x.valor.nomeSerie }
  function NomeAtributo(x: AggregateValorPostgres): string { x.valor.nomeAtributo }
  function DataInicioVigencia(x: AggregateValorPostgres): DateOnly { x.valor.dataInicioVigencia }

  function ListaFamilia(vs: seq<AggregateValorPostgres>): seq<string> { Distinct(Each(vs, NomeFamilia)) }
  function ListaSerie(vs: seq<AggregateValorPostgres>): seq<string> { Distinct(Each(vs, NomeSerie)) }
  function ListaAtributo(vs: seq<AggregateValorPostgres>): seq<string> { Distinct(Each(vs, NomeAtributo)) }
  function ListaData(vs: seq<AggregateValorPostgres>): seq<DateOnly> { Distinct(Each(vs, DataInicioVigencia)) }

  /** The arguments each loop passes. */
  function ChaveCall(x: AggregateValorPostgres): Consulta
  {
    PorChave(x.valor.nomeSerie, x.valor.nomeAtributo, x.valor.dataInicioVigencia)
  }
  function SerieAtributoDataCall(x: AggregateValorPostgres): Consulta
  {
    Filtrada(NoFilter.(nomeSerie := Some(x.valor.nomeSerie), nomeAtributo := Some(x.valor.nomeAtributo),
      dataInicioVigencia := Some(x.valor.dataInicioVigencia)))
  }
  function SerieDataCall(s: string, d: DateOnly): Consulta
  {
    Filtrada(NoFilter.(nomeSerie := Some(s), dataInicioVigencia := Some(d)))
  }
  function AtributoDataCall(a: string, d: DateOnly): Consulta
  {
    Filtrada(NoFilter.(nomeAtributo := Some(a), dataInicioVigencia := Some(d)))
  }
  function FamiliaDataCall(f: string, d: DateOnly): Consulta
  {
    Filtrada(NoFilter.(nomeFamilia := Some(f), dataInicioVigencia := Some(d)))
  }
  function FamiliaAtributoDataCall(f: string, a: string, d: DateOnly): Consulta
  {
    Filtrada(NoFilter.(nomeFamilia := Some(f), nomeAtributo := Some(a), dataInicioVigencia := Some(d)))
  }
  function FamiliaSerieAtributoDataCall(x: AggregateValorPostgres): Consulta
  {
    Filtrada(ValorFilter(Some(x.valor.nomeFamilia), Some(x.valor.nomeSerie), Some(x.valor.nomeAtributo),
      Some(x.valor.dataInicioVigencia)))
  }

  // ---------------------------------------------------------------------------
  // The test-data generator

  /** What CriarDados draws from Faker and reads from the clock, as functions
      of the loop position at which it draws or reads them: per family its
      name, file name and two descriptions; per series its name and
      description; per attribute the product name, its description and
      today's date; per value the amount and the update instant. */
  datatype Fontes = Fontes(
    familia: nat -> string,
    arquivo: nat -> string,
    descricaoFamilia: nat -> string,
    descricaoArquivo: nat -> string,
    serie: (nat, nat) -> string,
    descricaoSerie: (nat, nat) -> string,
    produto: (nat, nat, nat) -> string,
    descricaoAtributo: (nat, nat, nat) -> string,
    hoje: (nat, nat, nat) -> DateOnly,
    valor: (nat, nat, nat, nat) -> Double,
    agora: (nat, nat, nat, nat) -> Instant)

  /** The entities built once per family, series and attribute: the internal
      name is the name. */
  function FamiliaGerada(fo: Fontes, i: nat): Familia { Familia(fo.familia(i), fo.descricaoFamilia(i), fo.familia(i)) }
  function ArquivoGerado(fo: Fontes, i: nat): Arquivo { Arquivo(fo.arquivo(i), fo.descricaoArquivo(i), fo.arquivo(i)) }
  function SerieGerada(fo: Fontes, i: nat, j: nat): Serie { Serie(fo.serie(i, j), fo.descricaoSerie(i, j), fo.serie(i, j)) }
  function AtributoGerado(fo: Fontes, i: nat, j: nat, k: nat): Atributo
  {
    Atributo(fo.produto(i, j, k), fo.descricaoAtributo(i, j, k), fo.produto(i, j, k))
  }

  /** The aggregate CriarDados appends for family i, series j, attribute k, day d. */
  function Gerado(fo: Fontes, i: nat, j: nat, k: nat, d: nat): AggregateValorPostgres
  {
    var data := Vigencia(fo.hoje(i, j, k), d + 1);
    AggregateValorPostgres(ArquivoGerado(fo, i), FamiliaGerada(fo, i), SerieGerada(fo, i, j), AtributoGerado(fo, i, j, k),
      ValorPostgres(fo.arquivo(i), fo.familia(i), fo.serie(i, j), fo.produto(i, j, k), fo.valor(i, j, k, d),
        data, data, fo.agora(i, j, k, d)))
  }

  function Gerador(fo: Fontes): (nat, nat, nat, nat) -> AggregateValorPostgres
  {
    (i: nat, j: nat, k: nat, d: nat) => Gerado(fo, i, j, k, d)
  }

  /** The list CriarDados returns. */
  function Dados(fo: Fontes, qtdFamilia: int, qtdSerie: int, qtdAtributo: int, qtdDias: int): seq<AggregateValorPostgres>
  {
    Grid4(Count(qtdFamilia), Count(qtdSerie), Count(qtdAtributo), Count(qtdDias), Gerador(fo))
  }

  /** AddDays(-1) stays above 0001-01-01 for every attribute the loops reach. */
  predicate DiasAlcancaveis(fo: Fontes, qtdFamilia: int, qtdSerie: int, qtdAtributo: int, qtdDias: int)
  {
    forall i: nat, j: nat, k: nat :: i < qtdFamilia && j < qtdSerie && k < qtdAtributo ==>
      Alcanca(fo, i, j, k, qtdDias)
  }

  /** The dates of one family are reachable when those of all are. */
  lemma DiasDaFamilia(fo: Fontes, qtdFamilia: int, qtdSerie: int, qtdAtributo: int, qtdDias: int, i: nat)
    requires DiasAlcancaveis(fo, qtdFamilia, qtdSerie, qtdAtributo, qtdDias) && i < qtdFamilia
    ensures forall j: nat, k: nat :: j < qtdSerie && k < qtdAtributo ==> Alcanca(fo, i, j, k, qtdDias)
  {
  }

  /** qtdDias steps back from the date read for attribute k of series j of
      family i stay on or after 0001-01-01. */
  predicate Alcanca(fo: Fontes, i: nat, j: nat, k: nat, qtdDias: int)
  {
    qtdDias <= DayNumber(fo.hoje(i, j, k))
  }

  /** Answering the calls before i and then call i answers the calls up to i + 1. */
  lemma AnswersSnoc(rows: seq<ValorPostgres>, calls: seq<Consulta>, i: nat)
    requires i < |calls|
    ensures Answers(rows, calls[..i + 1]) == Answers(rows, calls[..i]) + Answer(rows, calls[i])
  {
    var answer := AnswerOf(rows);
    assert calls[..i + 1] == calls[..i] + [calls[i]];
    EachAppend(calls[..i], [calls[i]], answer);
    assert Each([calls[i]], answer) == [Answer(rows, calls[i])];
    FlattenSnoc(Each(calls[..i], answer), Answer(rows, calls[i]));
  }

  /** Answering two runs of calls one after the other answers both. */
  lemma AnswersAppend(rows: seq<ValorPostgres>, a: seq<Consulta>, b: seq<Consulta>)
    ensures Answers(rows, a + b) == Answers(rows, a) + Answers(rows, b)
  {
    EachAppend(a, b, AnswerOf(rows));
    FlattenAppend(Each(a, AnswerOf(rows)), Each(b, AnswerOf(rows)));
  }

  // ---------------------------------------------------------------------------
  // The service

  class BenchmarkPostgresService {
    const repository: PostgreSQLRepository

    constructor(repository: PostgreSQLRepository)
      ensures this.repository == repository
    {
      this.repository := repository;
    }

    /** Insert: the deduplicated reference lists, each written in its own loop
        (files, families, series, attributes), then one single-element
        BatchInsertValoresAsync per aggregate, in input order. */
    method Insert(vs: seq<AggregateValorPostgres>)
      requires repository.Valid()
      modifies repository
      ensures repository.Valid()
      ensures repository.log == old(repository.log) + InsertLog(vs)
      ensures repository.arquivos == InsertAllIfAbsent(old(repository.arquivos), ListaArquivos(vs), ArquivoKey)
      ensures repository.familias == InsertAllIfAbsent(old(repository.familias), ListaFamilias(vs), FamiliaKey)
      ensures repository.series == InsertAllIfAbsent(old(repository.series), ListaSeries(vs), SerieKey)
      ensures repository.atributos == InsertAllIfAbsent(old(repository.atributos), ListaAtributos(vs), AtributoKey)
      ensures repository.valores == UpsertAll(old(repository.valores), Each(vs, ValorOf))
    {
      var listaArquivos := ListaArquivos(vs);
      var listaFamilias := ListaFamilias(vs);
      var listaSeries := ListaSeries(vs);
      var listaAtributos := ListaAtributos(vs);

      ghost var log0 := repository.log;
      InsertArquivos(listaArquivos);
      ghost var e := Each(listaArquivos, ArquivoStatement);
      InsertFamilias(listaFamilias);
      AppendAssoc(log0, e, Each(listaFamilias, FamiliaStatement));
      e := e + Each(listaFamilias, FamiliaStatement);
      InsertSeries(listaSeries);
      AppendAssoc(log0, e, Each(listaSeries, SerieStatement));
      e := e + Each(listaSeries, SerieStatement);
      InsertAtributos(listaAtributos);
      AppendAssoc(log0, e, Each(listaAtributos, AtributoStatement));
      e := e + Each(listaAtributos, AtributoStatement);
      InsertValores(vs);
      AppendAssoc(log0, e, Each(Each(vs, ValorOf), UpsertOf));
      e := e + Each(Each(vs, ValorOf), UpsertOf);
      assert e == InsertLog(vs);
    }

    /** `foreach (Arquivo arquivo in listaArquivos) InsertArquivoAsync(arquivo)`. */
    method InsertArquivos(lista: seq<Arquivo>)
      requires repository.Valid()
      modifies repository
      ensures repository.Valid()
      ensures repository.log == old(repository.log) + Each(lista, ArquivoStatement)
      ensures repository.arquivos == InsertAllIfAbsent(old(repository.arquivos), lista, ArquivoKey)
      ensures repository.familias == old(repository.familias) && repository.series == old(repository.series)
      ensures repository.atributos == old(repository.atributos) && repository.valores == old(repository.valores)
    {
      var i := 0;
      while i < |lista|
        invariant 0 <= i <= |lista| && repository.Valid()
        invariant repository.log == old(repository.log) + Each(lista[..i], ArquivoStatement)
        invariant repository.arquivos == InsertAllIfAbsent(old(repository.arquivos), lista[..i], ArquivoKey)
        invariant repository.familias == old(repository.familias) && repository.series == old(repository.series)
        invariant repository.atributos == old(repository.atributos) && repository.valores == old(repository.valores)
      {
        var arquivo := lista[i];
        ghost var done := lista[..i];
        assert lista[..i + 1] == done + [arquivo] && (done + [arquivo])[..|done|] == done;
        EachAppend(done, [arquivo], ArquivoStatement);
        repository.InsertArquivo(arquivo);
        i := i + 1;
      }
      assert lista[..i] == lista;
    }

    /** `foreach (Familia familia in listaFamilias) InsertFamiliaAsync(familia)`. */
    method InsertFamilias(lista: seq<Familia>)
      requires repository.Valid()
      modifies repository
      ensures repository.Valid()
      ensures repository.log == old(repository.log) + Each(lista, FamiliaStatement)
      ensures repository.familias == InsertAllIfAbsent(old(repository.familias), lista, FamiliaKey)
      ensures repository.arquivos == old(repository.arquivos) && repository.series == old(repository.series)
      ensures repository.atributos == old(repository.atributos) && repository.valores == old(repository.valores)
    {
      var i := 0;
      while i < |lista|
        invariant 0 <= i <= |lista| && repository.Valid()
        invariant repository.log == old(repository.log) + Each(lista[..i], FamiliaStatement)
        invariant repository.familias == InsertAllIfAbsent(old(repository.familias), lista[..i], FamiliaKey)
        invariant repository.arquivos == old(repository.arquivos) && repository.series == old(repository.series)
        invariant repository.atributos == old(repository.atributos) && repository.valores == old(repository.valores)
      {
        var familia := lista[i];
        ghost var done := lista[..i];
        assert lista[..i + 1] == done + [familia] && (done + [familia])[..|done|] == done;
        EachAppend(done, [familia], FamiliaStatement);
        repository.InsertFamilia(familia);
        i := i + 1;
      }
      assert lista[..i] == lista;
    }

    /** `foreach (Serie serie in listaSeries) InsertSerieAsync(serie)`. */
    method InsertSeries(lista: seq<Serie>)
      requires repository.Valid()
      modifies repository
      ensures repository.Valid()
      ensures repository.log == old(repository.log) + Each(lista, SerieStatement)
      ensures repository.series == InsertAllIfAbsent(old(repository.series), lista, SerieKey)
      ensures repository.arquivos == old(repository.arquivos) && repository.familias == old(repository.familias)
      ensures repository.atributos == old(repository.atributos) && repository.valores == old(repository.valores)
    {
      var i := 0;
      while i < |lista|
        invariant 0 <= i <= |lista| && repository.Valid()
        invariant repository.log == old(repository.log) + Each(lista[..i], SerieStatement)
        invariant repository.series == InsertAllIfAbsent(old(repository.series), lista[..i], SerieKey)
        invariant repository.arquivos == old(repository.arquivos) && repository.familias == old(repository.familias)
        invariant repository.atributos == old(repository.atributos) && repository.valores == old(repository.valores)
      {
        var serie := lista[i];
        ghost var done := lista[..i];
        assert lista[..i + 1] == done + [serie] && (done + [serie])[..|done|] == done;
        EachAppend(done, [serie], SerieStatement);
        repository.InsertSerie(serie);
        i := i + 1;
      }
      assert lista[..i] == lista;
    }

    /** `foreach (Atributo atributo in listaAtributos) InsertAtributoAsync(atributo)`. */
    method InsertAtributos(lista: seq<Atributo>)
      requires repository.Valid()
      modifies repository
      ensures repository.Valid()
      ensures repository.log == old(repository.log) + Each(lista, AtributoStatement)
      ensures repository.atributos == InsertAllIfAbsent(old(repository.atributos), lista, AtributoKey)
      ensures repository.arquivos == old(repository.arquivos) && repository.familias == old(repository.familias)
      ensures repository.series == old(repository.series) && repository.valores == old(repository.valores)
    {
      var i := 0;
      while i < |lista|
        invariant 0 <= i <= |lista| && repository.Valid()
        invariant repository.log == old(repository.log) + Each(lista[..i], AtributoStatement)
        invariant repository.atributos == InsertAllIfAbsent(old(repository.atributos), lista[..i], AtributoKey)
        invariant repository.arquivos == old(repository.arquivos) && repository.familias == old(repository.familias)
        invariant repository.series == old(repository.series) && repository.valores == old(repository.valores)
      {
        var atributo := lista[i];
        ghost var done := lista[..i];
        assert lista[..i + 1] == done + [atributo] && (done + [atributo])[..|done|] == done;
        EachAppend(done, [atributo], AtributoStatement);
        repository.InsertAtributo(atributo);
        i := i + 1;
      }
      assert lista[..i] == lista;
    }

    /** `foreach (var valorPostgres in valoresPostgres) BatchInsertValoresAsync([valorPostgres.Valor])`. */
    method InsertValores(vs: seq<AggregateValorPostgres>)
      requires repository.Valid()
      modifies repository
      ensures repository.Valid()
      ensures repository.log == old(repository.log) + Each(Each(vs, ValorOf), UpsertOf)
      ensures repository.valores == UpsertAll(old(repository.valores), Each(vs, ValorOf))
      ensures repository.arquivos == old(repository.arquivos) && repository.familias == old(repository.familias)
      ensures repository.series == old(repository.series) && repository.atributos == old(repository.atributos)
    {
      ghost var lista := Each(vs, ValorOf);
      var i := 0;
      while i < |vs|
        invariant 0 <= i <= |vs| && repository.Valid()
        invariant repository.log == old(repository.log) + Each(lista[..i], UpsertOf)
        invariant repository.valores == UpsertAll(old(repository.valores), lista[..i])
        invariant repository.arquivos == old(repository.arquivos) && repository.familias == old(repository.familias)
        invariant repository.series == old(repository.series) && repository.atributos == old(repository.atributos)
      {
        var valor := vs[i].valor;
        ghost var done := lista[..i];
        assert lista[..i + 1] == done + [valor];
        UpsertAllSnoc(old(repository.valores), done, valor);
        EachAppend(done, [valor], UpsertOf);
        InsertValor(valor);
        i := i + 1;
      }
      assert lista[..i] == lista;
    }

    /** One iteration of the value loop: a batch of one. */
    method InsertValor(valor: ValorPostgres)
      requires repository.Valid()
      modifies repository
      ensures repository.Valid()
      ensures repository.log == old(repository.log) + [UpsertOf(valor)]
      ensures repository.valores == Upsert(old(repository.valores), valor)
      ensures repository.arquivos == old(repository.arquivos) && repository.familias == old(repository.familias)
      ensures repository.series == old(repository.series) && repository.atributos == old(repository.atributos)
    {
      UpsertAllSnoc(repository.valores, [], valor);
      assert [] + [valor] == [valor];
      repository.BatchInsertValores([valor]);
    }

    /** One call of a read loop. */
    method Ask(c: Consulta) returns (r: seq<ValorPostgres>)
      ensures r == Answer(repository.valores, c)
    {
      match c {
        case PorChave(s, a, d) =>
          var result := repository.GetValor(s, a, d);
          r := [];
          if result.Some? {
            r := r + [result.value];
          }
        case Filtrada(f) =>
          var sql, parameters, result := repository.GetValoresComFiltros(f);
          r := result;
      }
    }

    /** `foreach x in xs`: one call per element, the answers appended in order. */
    method RunEach<A>(xs: seq<A>, f: A -> Consulta) returns (r: seq<ValorPostgres>)
      ensures r == Answers(repository.valores, Each(xs, f))
    {
      ghost var calls := Each(xs, f);
      r := [];
      var i := 0;
      while i < |xs|
        invariant 0 <= i <= |xs|
        invariant r == Answers(repository.valores, calls[..i])
      {
        var a := Ask(f(xs[i]));
        AnswersSnoc(repository.valores, calls, i);
        r := r + a;
        i := i + 1;
      }
      assert calls[..i] == calls;
    }

    /** `foreach x in xs { foreach y in ys }`. */
    method RunCross<A, B>(xs: seq<A>, ys: seq<B>, f: (A, B) -> Consulta) returns (r: seq<ValorPostgres>)
      ensures r == Answers(repository.valores, Cross(xs, ys, f))
    {
      r := [];
      var i := 0;
      while i < |xs|
        invariant 0 <= i <= |xs|
        invariant r == Answers(repository.valores, Cross(xs[..i], ys, f))
      {
        var x := xs[i];
        assert xs[..i + 1][..i] == xs[..i];
        var g := y => f(x, y);
        RowIsEach(x, ys, f, g);
        var a := RunEach(ys, g);
        AnswersAppend(repository.valores, Cross(xs[..i], ys, f), Row(x, ys, f));
        r := r + a;
        i := i + 1;
      }
      assert xs[..i] == xs;
    }

    /** `foreach x in xs { foreach y in ys { foreach z in zs } }`. */
    method RunCross3<A, B, D>(xs: seq<A>, ys: seq<B>, zs: seq<D>, f: (A, B, D) -> Consulta) returns (r: seq<ValorPostgres>)
      ensures r == Answers(repository.valores, Cross3(xs, ys, zs, f))
    {
      r := [];
      var i := 0;
      while i < |xs|
        invariant 0 <= i <= |xs|
        invariant r == Answers(repository.valores, Cross3(xs[..i], ys, zs, f))
      {
        var x := xs[i];
        assert xs[..i + 1][..i] == xs[..i];
        var g := (y, z) => f(x, y, z);
        PlaneIsCross(x, ys, zs, f, g);
        var a := RunCross(ys, zs, g);
        AnswersAppend(repository.valores, Cross3(xs[..i], ys, zs, f), Plane(x, ys, zs, f));
        r := r + a;
        i := i + 1;
      }
      assert xs[..i] == xs;
    }

    /** GetSerieItemSerieAtributoData: one GetValorAsync per aggregate; a null answer adds nothing. */
    method GetSerieItemSerieAtributoData(vs: seq<AggregateValorPostgres>) returns (r: seq<ValorPostgres>)
      ensures r == Answers(repository.valores, Each(vs, ChaveCall))
    {
      r := RunEach(vs, ChaveCall);
    }

    /** GetSerieAtributoData: per aggregate, the select filtered by its series, attribute and start date. */
    method GetSerieAtributoData(vs: seq<AggregateValorPostgres>) returns (r: seq<ValorPostgres>)
      ensures r == Answers(repository.valores, Each(vs, SerieAtributoDataCall))
    {
      r := RunEach(vs, SerieAtributoDataCall);
    }

    /** GetSerieData: for each series, for each start date, the select filtered by both. */
    method GetSerieData(vs: seq<AggregateValorPostgres>) returns (r: seq<ValorPostgres>)
      ensures r == Answers(repository.valores, Cross(ListaSerie(vs), ListaData(vs), SerieDataCall))
    {
      var listaSeries := ListaSerie(vs);
      var listaDataInicioVigencia := ListaData(vs);
      r := RunCross(listaSeries, listaDataInicioVigencia, SerieDataCall);
    }

    /** GetAtributoData: for each attribute, for each start date, the select filtered by both. */
    method GetAtributoData(vs: seq<AggregateValorPostgres>) returns (r: seq<ValorPostgres>)
      ensures r == Answers(repository.valores, Cross(ListaAtributo(vs), ListaData(vs), AtributoDataCall))
    {
      var listaAtributo := ListaAtributo(vs);
      var listaDataInicioVigencia := ListaData(vs);
      r := RunCross(listaAtributo, listaDataInicioVigencia, AtributoDataCall);
    }

    /** GetFamiliaData: for each family, for each start date, the select filtered by both. */
    method GetFamiliaData(vs: seq<AggregateValorPostgres>) returns (r: seq<ValorPostgres>)
      ensures r == Answers(repository.valores, Cross(ListaFamilia(vs), ListaData(vs), FamiliaDataCall))
    {
      var listaFamilia := ListaFamilia(vs);
      var listaDataInicioVigencia := ListaData(vs);
      r := RunCross(listaFamilia, listaDataInicioVigencia, FamiliaDataCall);
    }

    /** GetFamiliaAtributoData: for each family, attribute and start date, the select filtered by all three. */
    method GetFamiliaAtributoData(vs: seq<AggregateValorPostgres>) returns (r: seq<ValorPostgres>)
      ensures r == Answers(repository.valores, Cross3(ListaFamilia(vs), ListaAtributo(vs), ListaData(vs), FamiliaAtributoDataCall))
    {
      var listaFamilia := ListaFamilia(vs);
      var listaAtributo := ListaAtributo(vs);
      var listaDataInicioVigencia := ListaData(vs);
      r := RunCross3(listaFamilia, listaAtributo, listaDataInicioVigencia, FamiliaAtributoDataCall);
    }

    /** GetFamiliaSerieAtributoData: per aggregate, the select filtered by all four of its fields. */
    method GetFamiliaSerieAtributoData(vs: seq<AggregateValorPostgres>) returns (r: seq<ValorPostgres>)
      ensures r == Answers(repository.valores, Each(vs, FamiliaSerieAtributoDataCall))
    {
      r := RunEach(vs, FamiliaSerieAtributoDataCall);
    }

    /** DeleteAllItens: DeleteAllAsync, whose `TRUNCATE TABLE valor` names no
        table: the call fails and every table keeps its rows. */
    method DeleteAllItens() returns (r: Result<(), SqlError>)
      requires repository.Valid()
      modifies repository
      ensures repository.Valid() && r == Err(UndefinedTable("valor"))
      ensures repository.valores == old(repository.valores)
      ensures repository.arquivos == old(repository.arquivos) && repository.familias == old(repository.familias)
      ensures repository.series == old(repository.series) && repository.atributos == old(repository.atributos)
    {
      r := repository.DeleteAllAsWritten();
    }

    /** CriarDados: for each family, series, attribute and day, one aggregate
        whose value names the entities built for it, dated one day earlier than
        the previous one. */
    static method CriarDados(qtdFamilia: int, qtdSerie: int, qtdAtributo: int, qtdDias: int, fo: Fontes)
      returns (r: seq<AggregateValorPostgres>)
      requires DiasAlcancaveis(fo, qtdFamilia, qtdSerie, qtdAtributo, qtdDias)
      ensures r == Dados(fo, qtdFamilia, qtdSerie, qtdAtributo, qtdDias)
    {
      var nf, ns, na, nd := Count(qtdFamilia), Count(qtdSerie), Count(qtdAtributo), Count(qtdDias);
      var g := Gerador(fo);
      r := [];
      var i := 0;
      while i < qtdFamilia
        invariant 0 <= i <= nf
        invariant r == Grid4(i, ns, na, nd, g)
      {
        var series := ValoresDaFamilia(fo, i, qtdFamilia, qtdSerie, qtdAtributo, qtdDias);
        r := r + series;
        Grid4Snoc(i, ns, na, nd, g);
        i := i + 1;
      }
      assert r == Grid4(nf, ns, na, nd, g);
    }

    /** The series loop of CriarDados, for one family. */
    static method ValoresDaFamilia(fo: Fontes, i: nat, qtdFamilia: int, qtdSerie: int, qtdAtributo: int, qtdDias: int)
      returns (r: seq<AggregateValorPostgres>)
      requires DiasAlcancaveis(fo, qtdFamilia, qtdSerie, qtdAtributo, qtdDias) && i < qtdFamilia
      ensures r == Grid3(i, Count(qtdSerie), Count(qtdAtributo), Count(qtdDias), Gerador(fo))
    {
      var familia := FamiliaGerada(fo, i);
      var arquivo := ArquivoGerado(fo, i);
      DiasDaFamilia(fo, qtdFamilia, qtdSerie, qtdAtributo, qtdDias, i);
      var ns, na, nd, g := Count(qtdSerie), Count(qtdAtributo), Count(qtdDias), Gerador(fo);
      r := [];
      var j := 0;
      while j < qtdSerie
        invariant 0 <= j <= ns
        invariant r == Grid3(i, j, na, nd, g)
      {
        var nomeSerie := fo.serie(i, j);
        var serie := Serie(nomeSerie, fo.descricaoSerie(i, j), nomeSerie);
        var atributos := ValoresDaSerie(fo, i, j, qtdAtributo, qtdDias, familia, arquivo, serie);
        r := r + atributos;
        Grid3Snoc(i, j, na, nd, g);
        j := j + 1;
      }
    }

    /** The attribute loop of CriarDados, for one series of one family. */
    static method ValoresDaSerie(fo: Fontes, i: nat, j: nat, qtdAtributo: int, qtdDias: int,
                                 familia: Familia, arquivo: Arquivo, serie: Serie)
      returns (r: seq<AggregateValorPostgres>)
      requires familia == FamiliaGerada(fo, i) && arquivo == ArquivoGerado(fo, i) && serie == SerieGerada(fo, i, j)
      requires forall k: nat :: k < qtdAtributo ==> Alcanca(fo, i, j, k, qtdDias)
      ensures r == Grid2(i, j, Count(qtdAtributo), Count(qtdDias), Gerador(fo))
    {
      var na, nd, g := Count(qtdAtributo), Count(qtdDias), Gerador(fo);
      r := [];
      var k := 0;
      while k < qtdAtributo
        invariant 0 <= k <= na
        invariant r == Grid2(i, j, k, nd, g)
      {
        var nomeAtributo := fo.produto(i, j, k);
        var atributo := Atributo(nomeAtributo, fo.descricaoAtributo(i, j, k), nomeAtributo);
        var dias := ValoresDoAtributo(fo, i, j, k, qtdDias, familia, arquivo, serie, atributo);
        r := r + dias;
        k := k + 1;
      }
      assert k == na;
    }

    /** The innermost loop of CriarDados: today's date read once, then one
        aggregate per day, each dated one day earlier than the previous one. */
    static method ValoresDoAtributo(fo: Fontes, i: nat, j: nat, k: nat, qtdDias: int,
                                    familia: Familia, arquivo: Arquivo, serie: Serie, atributo: Atributo)
      returns (r: seq<AggregateValorPostgres>)
      requires familia == FamiliaGerada(fo, i) && arquivo == ArquivoGerado(fo, i) && serie == SerieGerada(fo, i, j)
      requires atributo == AtributoGerado(fo, i, j, k)
      requires Alcanca(fo, i, j, k, qtdDias)
      ensures r == Grid1(i, j, k, Count(qtdDias), Gerador(fo))
    {
      var nd, g := Count(qtdDias), Gerador(fo);
      var hoje := fo.hoje(i, j, k);
      var dataVigencia := hoje;
      r := [];
      var d := 0;
      while d < qtdDias
        invariant 0 <= d <= nd
        invariant dataVigencia == Vigencia(hoje, d)
        invariant r == Grid1(i, j, k, d, g)
      {
        VigenciaStep(hoje, d, dataVigencia);
        dataVigencia := PreviousDay(dataVigencia);
        var valor := ValorPostgres(arquivo.nomeArquivo, familia.nomeFamilia, serie.nomeSerie, atributo.nomeAtributo,
          fo.valor(i, j, k, d), dataVigencia, dataVigencia, fo.agora(i, j, k, d));
        var aggregate := AggregateValorPostgres(arquivo, familia, serie, atributo, valor);
        assert aggregate == Gerado(fo, i, j, k, d);
        r := r + [aggregate];
        d := d + 1;
      }
      assert d == nd;
    }
  }
}
