/** PostgreSQLRepository: the four reference tables, written with
    `INSERT ... ON CONFLICT DO NOTHING`; the "Valor" table, written one row
    at a time with an upsert on (NomeSerie, NomeAtributo, DataAtualizacao);
    the point lookup, the filtered select and the truncation of "Valor". */
module PostgresRepository {
  import opened Wrappers
  import opened Dates
  import opened Sequences
  import opened Models
  import opened Strings
  import opened PostgresFilters

  // ---------------------------------------------------------------------------
  // Reference tables: ON CONFLICT (name) DO NOTHING

  /** A reference table keyed by its name column: the row is added only when
      no row with that name exists yet. */
  function InsertIfAbsent<V>(table: map<string, V>, name: string, row: V): (r: map<string, V>)
    ensures name in r && r[name] == (if name in table then table[name] else row)
    ensures r.Keys == table.Keys + {name}
    ensures forall n :: n in table && n != name ==> r[n] == table[n]
  {
    if name in table then table else table[name := row]
  }

  /** Inserting the same name a second time changes nothing, whatever the row. */
  lemma InsertIfAbsentIdempotent<V>(table: map<string, V>, name: string, row: V, other: V)
    ensures InsertIfAbsent(InsertIfAbsent(table, name, row), name, other) == InsertIfAbsent(table, name, row)
  {
  }

  // ---------------------------------------------------------------------------
  // The "Valor" table: ON CONFLICT ("NomeSerie", "NomeAtributo", "DataAtualizacao") DO UPDATE

  /** The conflict target of the upsert. */
  function ConflictKey(v: ValorPostgres): (string, string, Instant)
  {
    (v.nomeSerie, v.nomeAtributo, v.dataAtualizacao)
  }

  /** `DO UPDATE SET "Valor" = EXCLUDED."Valor", "DataAtualizacao" = EXCLUDED."DataAtualizacao"`:
      every other column keeps the stored row's value. */
  function Updated(stored: ValorPostgres, excluded: ValorPostgres): ValorPostgres
  {
    stored.(valorAtivo := excluded.valorAtivo, dataAtualizacao := excluded.dataAtualizacao)
  }

  /** One executed upsert: the conflicting row is updated in place, or the
      row is added after all others. */
  function Upsert(rows: seq<ValorPostgres>, v: ValorPostgres): seq<ValorPostgres>
  {
    if |rows| == 0 then [v]
    else if ConflictKey(rows[0]) == ConflictKey(v) then [Updated(rows[0], v)] + rows[1..]
    else [rows[0]] + Upsert(rows[1..], v)
  }

  /** The upserts of a list, one after the other. */
  function UpsertAll(rows: seq<ValorPostgres>, vs: seq<ValorPostgres>): seq<ValorPostgres>
  {
    if |vs| == 0 then rows else Upsert(UpsertAll(rows, vs[..|vs| - 1]), vs[|vs| - 1])
  }

  /** The row of the table with a given conflict key. */
  function Lookup(rows: seq<ValorPostgres>, k: (string, string, Instant)): (r: Option<ValorPostgres>)
    ensures r.Some? <==> exists i :: 0 <= i < |rows| && ConflictKey(rows[i]) == k
    ensures r.Some? ==> r.value in rows && ConflictKey(r.value) == k
  {
    if |rows| == 0 then None
    else if ConflictKey(rows[0]) == k then Some(rows[0])
    else
      var r := Lookup(rows[1..], k);
      assert forall i :: 1 <= i < |rows| ==> rows[i] == rows[1..][i - 1];
      r
  }

  /** The row an upsert leaves under each key: the updated stored row or the
      new row under the new key, the old row under every other key. */
  lemma {:induction false} UpsertLookup(rows: seq<ValorPostgres>, v: ValorPostgres, k: (string, string, Instant))
    ensures Lookup(Upsert(rows, v), k) ==
      if k != ConflictKey(v) then Lookup(rows, k)
      else if Lookup(rows, k).Some? then Some(Updated(Lookup(rows, k).value, v))
      else Some(v)
  {
    if |rows| > 0 && ConflictKey(rows[0]) != ConflictKey(v) {
      UpsertLookup(rows[1..], v, k);
      assert Upsert(rows, v)[1..] == Upsert(rows[1..], v);
    } else if |rows| > 0 {
      assert Upsert(rows, v)[1..] == rows[1..];
    }
  }

  /** The conflict keys after an upsert: unchanged when the key was present,
      the new key appended when it was absent. */
  lemma {:induction false} UpsertKeys(rows: seq<ValorPostgres>, v: ValorPostgres)
    ensures Each(Upsert(rows, v), ConflictKey) ==
      if Lookup(rows, ConflictKey(v)).Some? then Each(rows, ConflictKey) else Each(rows, ConflictKey) + [ConflictKey(v)]
  {
    if |rows| > 0 && ConflictKey(rows[0]) != ConflictKey(v) {
      UpsertKeys(rows[1..], v);
      assert Upsert(rows, v) == [rows[0]] + Upsert(rows[1..], v);
      EachAppend([rows[0]], Upsert(rows[1..], v), ConflictKey);
      EachAppend([rows[0]], rows[1..], ConflictKey);
      assert rows == [rows[0]] + rows[1..];
      assert Lookup(rows, ConflictKey(v)) == Lookup(rows[1..], ConflictKey(v));
      if Lookup(rows, ConflictKey(v)).None? {
        assert Each(rows, ConflictKey) + [ConflictKey(v)]
          == Each([rows[0]], ConflictKey) + (Each(rows[1..], ConflictKey) + [ConflictKey(v)]);
      }
    } else if |rows| > 0 {
      assert Upsert(rows, v) == [Updated(rows[0], v)] + rows[1..];
    }
  }

  /** An upsert keeps the conflict keys unique; the row under the new key is
      the updated stored row or the new row; every other key keeps its row;
      the table grows by one row exactly when the key was absent. */
  lemma UpsertSpec(rows: seq<ValorPostgres>, v: ValorPostgres)
    requires KeysDistinct(rows, ConflictKey)
    ensures KeysDistinct(Upsert(rows, v), ConflictKey)
    ensures Lookup(Upsert(rows, v), ConflictKey(v))
      == Some(if Lookup(rows, ConflictKey(v)).Some? then Updated(Lookup(rows, ConflictKey(v)).value, v) else v)
    ensures forall k :: k != ConflictKey(v) ==> Lookup(Upsert(rows, v), k) == Lookup(rows, k)
    ensures |Upsert(rows, v)| == |rows| + (if Lookup(rows, ConflictKey(v)).None? then 1 else 0)
  {
    UpsertKeysDistinct(rows, v);
    UpsertLookup(rows, v, ConflictKey(v));
    forall k | k != ConflictKey(v) ensures Lookup(Upsert(rows, v), k) == Lookup(rows, k) {
      UpsertLookup(rows, v, k);
    }
  }

  lemma UpsertKeysDistinct(rows: seq<ValorPostgres>, v: ValorPostgres)
    requires KeysDistinct(rows, ConflictKey)
    ensures KeysDistinct(Upsert(rows, v), ConflictKey)
    ensures |Upsert(rows, v)| == |rows| + (if Lookup(rows, ConflictKey(v)).None? then 1 else 0)
  {
    UpsertKeys(rows, v);
    var r := Upsert(rows, v);
    var ks := Each(r, ConflictKey);
    forall i, j | 0 <= i < j < |r| ensures ConflictKey(r[i]) != ConflictKey(r[j]) {
      assert ks[i] == ConflictKey(r[i]) && ks[j] == ConflictKey(r[j]);
      if j == |rows| {
        assert ks[i] == ConflictKey(rows[i]);
      } else {
        assert ks[i] == ConflictKey(rows[i]) && ks[j] == ConflictKey(rows[j]);
      }
    }
  }

  /** A sequence of upserts keeps the conflict keys unique, and a key has a
      row afterwards exactly when it had one before or one of the upserted
      rows carries it. */
  lemma {:induction false} UpsertAllSpec(rows: seq<ValorPostgres>, vs: seq<ValorPostgres>)
    requires KeysDistinct(rows, ConflictKey)
    ensures KeysDistinct(UpsertAll(rows, vs), ConflictKey)
    ensures forall k :: (Lookup(UpsertAll(rows, vs), k).Some?
      <==> Lookup(rows, k).Some? || exists i :: 0 <= i < |vs| && ConflictKey(vs[i]) == k)
  {
    if |vs| > 0 {
      var init := vs[..|vs| - 1];
      var last := vs[|vs| - 1];
      UpsertAllSpec(rows, init);
      UpsertSpec(UpsertAll(rows, init), last);
      forall k ensures Lookup(UpsertAll(rows, vs), k).Some?
        <==> Lookup(rows, k).Some? || exists i :: 0 <= i < |vs| && ConflictKey(vs[i]) == k
      {
        KeyAmongSnoc(vs, init, k);
      }
    }
  }

  /** A key is carried by a non-empty list exactly when it is carried by all
      but its last element or by the last. */
  lemma KeyAmongSnoc(vs: seq<ValorPostgres>, init: seq<ValorPostgres>, k: (string, string, Instant))
    requires |vs| > 0 && init == vs[..|vs| - 1]
    ensures (exists i :: 0 <= i < |vs| && ConflictKey(vs[i]) == k)
      <==> (exists i :: 0 <= i < |init| && ConflictKey(init[i]) == k) || ConflictKey(vs[|vs| - 1]) == k
  {
    if exists i :: 0 <= i < |vs| && ConflictKey(vs[i]) == k {
      var i :| 0 <= i < |vs| && ConflictKey(vs[i]) == k;
      if i < |vs| - 1 {
        assert init[i] == vs[i];
      }
    }
    if exists i :: 0 <= i < |init| && ConflictKey(init[i]) == k {
      var i :| 0 <= i < |init| && ConflictKey(init[i]) == k;
      assert vs[i] == init[i];
    }
  }

  /** The conflict target leaves out DataInicioVigencia but holds
      DataAtualizacao: the same series, attribute and start date written at two
      different instants are two rows. */
  lemma SameStartDifferentInstants(rows: seq<ValorPostgres>, v: ValorPostgres, w: ValorPostgres)
    requires KeysDistinct(rows, ConflictKey) && Lookup(rows, ConflictKey(v)).None? && Lookup(rows, ConflictKey(w)).None?
    requires v.nomeSerie == w.nomeSerie && v.nomeAtributo == w.nomeAtributo && v.dataInicioVigencia == w.dataInicioVigencia
    requires v.dataAtualizacao != w.dataAtualizacao
    ensures |Upsert(Upsert(rows, v), w)| == |rows| + 2
    ensures Lookup(Upsert(Upsert(rows, v), w), ConflictKey(v)) == Some(v)
    ensures Lookup(Upsert(Upsert(rows, v), w), ConflictKey(w)) == Some(w)
  {
    UpsertSpec(rows, v);
    UpsertSpec(Upsert(rows, v), w);
  }

  /** The last upsert of a key decides its stored amount and update instant. */
  lemma LastWriteWins(rows: seq<ValorPostgres>, vs: seq<ValorPostgres>, w: ValorPostgres)
    requires KeysDistinct(rows, ConflictKey)
    ensures Lookup(UpsertAll(rows, vs + [w]), ConflictKey(w)).Some?
    ensures Lookup(UpsertAll(rows, vs + [w]), ConflictKey(w)).value.valorAtivo == w.valorAtivo
    ensures Lookup(UpsertAll(rows, vs + [w]), ConflictKey(w)).value.dataAtualizacao == w.dataAtualizacao
  {
    assert (vs + [w])[..|vs|] == vs;
    UpsertAllSpec(rows, vs);
    UpsertSpec(UpsertAll(rows, vs), w);
  }

  /** The conflict target leaves out DataInicioVigencia: two values of the same
      series and attribute written with the same update instant but different
      start dates end up as one row, which keeps the first start date and the
      second amount. */
  lemma DifferentStartsCollide(rows: seq<ValorPostgres>, v: ValorPostgres, w: ValorPostgres)
    requires KeysDistinct(rows, ConflictKey) && Lookup(rows, ConflictKey(v)).None?
    requires ConflictKey(v) == ConflictKey(w) && v.dataInicioVigencia != w.dataInicioVigencia
    ensures |Upsert(Upsert(rows, v), w)| == |rows| + 1
    ensures Lookup(Upsert(Upsert(rows, v), w), ConflictKey(w)) == Some(v.(valorAtivo := w.valorAtivo))
    ensures forall u :: u in Upsert(Upsert(rows, v), w) && ConflictKey(u) == ConflictKey(w) ==>
      u.dataInicioVigencia != w.dataInicioVigencia
  {
    UpsertSpec(rows, v);
    UpsertSpec(Upsert(rows, v), w);
    var r := Upsert(Upsert(rows, v), w);
    forall u | u in r && ConflictKey(u) == ConflictKey(w) ensures u.dataInicioVigencia != w.dataInicioVigencia {
      var i :| 0 <= i < |r| && r[i] == u;
      var l := Lookup(r, ConflictKey(w)).value;
      var m :| 0 <= m < |r| && r[m] == l;
      assert i == m;
    }
  }

  // ---------------------------------------------------------------------------
  // Reads

  /** The WHERE clause of GetValorAsync. */
  predicate AtKey(v: ValorPostgres, nomeSerie: string, nomeAtributo: string, dataInicioVigencia: DateOnly)
  {
    v.nomeSerie == nomeSerie && v.nomeAtributo == nomeAtributo && v.dataInicioVigencia == dataInicioVigencia
  }

  /** GetValorAsync: the first row the select returns, or null when it returns none;
      "first" is in the row order the model fixes for the table. */
  function FindValor(rows: seq<ValorPostgres>, nomeSerie: string, nomeAtributo: string, dataInicioVigencia: DateOnly)
    : (r: Option<ValorPostgres>)
    ensures r.Some? <==> exists i :: 0 <= i < |rows| && AtKey(rows[i], nomeSerie, nomeAtributo, dataInicioVigencia)
    ensures r.Some? ==> exists i :: (0 <= i < |rows| && rows[i] == r.value
      && AtKey(rows[i], nomeSerie, nomeAtributo, dataInicioVigencia)
      && forall j :: 0 <= j < i ==> !AtKey(rows[j], nomeSerie, nomeAtributo, dataInicioVigencia))
  {
    if |rows| == 0 then None
    else if AtKey(rows[0], nomeSerie, nomeAtributo, dataInicioVigencia) then Some(rows[0])
    else
      var r := FindValor(rows[1..], nomeSerie, nomeAtributo, dataInicioVigencia);
      assert forall i :: 1 <= i < |rows| ==> rows[i] == rows[1..][i - 1];
      r
  }

  /** The fixed part of GetValoresComFiltrosAsync's SELECT. */
  const SelectValor: string :=
    "SELECT \"NomeFamilia\", \"NomeSerie\", \"NomeAtributo\", \"NomeArquivo\", \"Valor\", \"DataInicioVigencia\", \"DataFimVigencia\", \"DataAtualizacao\" FROM \"Valor\""

  /** The rows GetValoresComFiltrosAsync reads: those its WHERE clause admits, in table order. */
  function Selected(rows: seq<ValorPostgres>, f: ValorFilter): seq<ValorPostgres>
  {
    Where(rows, (v: ValorPostgres) => RowMatches(v, Clauses(f)))
  }

  /** The filtered select returns exactly the table's rows that satisfy the
      filter, never more rows than the table holds, and the whole table when
      no predicate is given. */
  lemma SelectedSpec(rows: seq<ValorPostgres>, f: ValorFilter)
    ensures |Selected(rows, f)| <= |rows|
    ensures forall v :: v in Selected(rows, f) <==> v in rows && Satisfies(v, f)
    ensures (forall c :: !Given(f, c)) ==> Selected(rows, f) == rows
  {
    WhereProps(rows, (v: ValorPostgres) => RowMatches(v, Clauses(f)));
    forall v ensures RowMatches(v, Clauses(f)) <==> Satisfies(v, f) {
      RowMatchesIff(v, f);
    }
    if forall c :: !Given(f, c) {
      FiltrosEmptyIff(f);
      WhereAll(rows, (v: ValorPostgres) => RowMatches(v, Clauses(f)));
    }
  }

  /** A predicate every row satisfies selects the whole sequence. */
  lemma {:induction false} WhereAll<T>(xs: seq<T>, p: T -> bool)
    requires forall x :: x in xs ==> p(x)
    ensures Where(xs, p) == xs
  {
    if |xs| > 0 {
      WhereAll(xs[..|xs| - 1], p);
      assert xs == xs[..|xs| - 1] + [xs[|xs| - 1]];
    }
  }

  /** The point lookup and the filtered select agree: GetValorAsync answers
      the first row of the select filtered by series, attribute and start date,
      as long as neither name is blank (the select drops a blank predicate,
      the lookup compares it). */
  lemma {:induction false} FindValorIsFirstSelected(rows: seq<ValorPostgres>, s: string, a: string, d: DateOnly)
    requires !IsNullOrWhiteSpace(Some(s)) && !IsNullOrWhiteSpace(Some(a))
    ensures var sel := Selected(rows, ValorFilter(None, Some(s), Some(a), Some(d)));
      FindValor(rows, s, a, d) == (if |sel| == 0 then None else Some(sel[0]))
  {
    var f := ValorFilter(None, Some(s), Some(a), Some(d));
    var p := (v: ValorPostgres) => RowMatches(v, Clauses(f));
    if |rows| > 0 {
      assert rows == [rows[0]] + rows[1..];
      WhereAppend([rows[0]], rows[1..], p);
      assert Where([rows[0]], p) == Where([], p) + (if p(rows[0]) then [rows[0]] else []);
      FindValorIsFirstSelected(rows[1..], s, a, d);
      RowMatchesIff(rows[0], f);
    }
  }

  // ---------------------------------------------------------------------------
  // TRUNCATE TABLE valor

  /** PostgreSQL folds an unquoted identifier to lower case and keeps a quoted one as written. */
  function Lower(c: char): (l: char)
    ensures !('A' <= l <= 'Z')
  {
    if 'A' <= c <= 'Z' then (c as int + 32) as char else c
  }

  function FoldIdentifier(id: string, quoted: bool): string
  {
    if quoted then id else Each(id, Lower)
  }

  /** The tables the inserts and selects name, all created with quoted, capitalised names. */
  const Catalog: set<string> := {"Arquivo", "Familia", "Serie", "Atributo", "Valor"}

  datatype SqlError = UndefinedTable(name: string)

  /** The table an identifier names, or 42P01 undefined_table. */
  function ResolveTable(id: string, quoted: bool): Result<string, SqlError>
  {
    var name := FoldIdentifier(id, quoted);
    if name in Catalog then Ok(name) else Err(UndefinedTable(name))
  }

  /** No unquoted identifier names a table of the catalog, while each quoted
      catalog name names its table. */
  lemma UnquotedNeverResolves(id: string)
    ensures ResolveTable(id, false).Err?
    ensures forall n :: n in Catalog ==> ResolveTable(n, true) == Ok(n)
  {
    var name := FoldIdentifier(id, false);
    assert forall n :: n in Catalog ==> |n| > 0 && 'A' <= n[0] <= 'Z';
    if |id| > 0 {
      assert name[0] == Lower(id[0]);
    }
  }

  // ---------------------------------------------------------------------------
  // The repository

  /** One statement executed against the database, in the order executed. */
  datatype Statement =
    | InsertArquivoStatement(arquivo: Arquivo)
    | InsertFamiliaStatement(familia: Familia)
    | InsertSerieStatement(serie: Serie)
    | InsertAtributoStatement(atributo: Atributo)
    | UpsertValorStatement(valor: ValorPostgres)
    | TruncateStatement(table: string, quoted: bool)

  function UpsertOf(v: ValorPostgres): Statement { UpsertValorStatement(v) }

  /** Each reference row is stored under its own name. */
  ghost predicate ArquivosByName(m: map<string, Arquivo>) { forall n :: n in m ==> m[n].nomeArquivo == n }
  ghost predicate FamiliasByName(m: map<string, Familia>) { forall n :: n in m ==> m[n].nomeFamilia == n }
  ghost predicate SeriesByName(m: map<string, Serie>) { forall n :: n in m ==> m[n].nomeSerie == n }
  ghost predicate AtributosByName(m: map<string, Atributo>) { forall n :: n in m ==> m[n].nomeAtributo == n }

  class PostgreSQLRepository {
    var arquivos: map<string, Arquivo>
    var familias: map<string, Familia>
    var series: map<string, Serie>
    var atributos: map<string, Atributo>
    /** The "Valor" table, in the one row order the model fixes: insertion
        order, with an upserted row kept in its place (neither SELECT has an
        ORDER BY, so PostgreSQL itself promises no order). */
    var valores: seq<ValorPostgres>
    /** The statements executed so far. */
    var log: seq<Statement>

    /** Each reference row is stored under its own name; the conflict key of "Valor" is unique. */
    ghost predicate Valid()
      reads this
    {
      ArquivosByName(arquivos) && FamiliasByName(familias) && SeriesByName(series) && AtributosByName(atributos)
      && KeysDistinct(valores, ConflictKey)
    }

    constructor()
      ensures Valid()
      ensures arquivos == map[] && familias == map[] && series == map[] && atributos == map[] && valores == []
      ensures log == []
    {
      arquivos, familias, series, atributos := map[], map[], map[], map[];
      valores, log := [], [];
    }

    /** InsertArquivoAsync. */
    method InsertArquivo(arquivo: Arquivo)
      requires Valid()
      modifies this
      ensures Valid()
      ensures arquivos == InsertIfAbsent(old(arquivos), arquivo.nomeArquivo, arquivo)
      ensures log == old(log) + [InsertArquivoStatement(arquivo)]
      ensures familias == old(familias) && series == old(series) && atributos == old(atributos) && valores == old(valores)
    {
      arquivos := InsertIfAbsent(arquivos, arquivo.nomeArquivo, arquivo);
      log := log + [InsertArquivoStatement(arquivo)];
    }

    /** InsertFamiliaAsync. */
    method InsertFamilia(familia: Familia)
      requires Valid()
      modifies this
      ensures Valid()
      ensures familias == InsertIfAbsent(old(familias), familia.nomeFamilia, familia)
      ensures log == old(log) + [InsertFamiliaStatement(familia)]
      ensures arquivos == old(arquivos) && series == old(series) && atributos == old(atributos) && valores == old(valores)
    {
      familias := InsertIfAbsent(familias, familia.nomeFamilia, familia);
      log := log + [InsertFamiliaStatement(familia)];
    }

    /** InsertSerieAsync. */
    method InsertSerie(serie: Serie)
      requires Valid()
      modifies this
      ensures Valid()
      ensures series == InsertIfAbsent(old(series), serie.nomeSerie, serie)
      ensures log == old(log) + [InsertSerieStatement(serie)]
      ensures arquivos == old(arquivos) && familias == old(familias) && atributos == old(atributos) && valores == old(valores)
    {
      series := InsertIfAbsent(series, serie.nomeSerie, serie);
      log := log + [InsertSerieStatement(serie)];
    }

    /** InsertAtributoAsync. */
    method InsertAtributo(atributo: Atributo)
      requires Valid()
      modifies this
      ensures Valid()
      ensures atributos == InsertIfAbsent(old(atributos), atributo.nomeAtributo, atributo)
      ensures log == old(log) + [InsertAtributoStatement(atributo)]
      ensures arquivos == old(arquivos) && familias == old(familias) && series == old(series) && valores == old(valores)
    {
      atributos := InsertIfAbsent(atributos, atributo.nomeAtributo, atributo);
      log := log + [InsertAtributoStatement(atributo)];
    }

    /** One ExecuteNonQueryAsync of the prepared upsert, its parameters set from one value. */
    method ExecuteUpsert(valor: ValorPostgres)
      requires Valid()
      modifies this
      ensures Valid()
      ensures valores == Upsert(old(valores), valor)
      ensures log == old(log) + [UpsertValorStatement(valor)]
      ensures arquivos == old(arquivos) && familias == old(familias) && series == old(series) && atributos == old(atributos)
    {
      UpsertKeysDistinct(valores, valor);
      valores := Upsert(valores, valor);
      log := log + [UpsertValorStatement(valor)];
    }

    /** BatchInsertValoresAsync: one upsert per value, in order, on one prepared command. */
    method BatchInsertValores(lista: seq<ValorPostgres>)
      requires Valid()
      modifies this
      ensures Valid()
      ensures valores == UpsertAll(old(valores), lista)
      ensures log == old(log) + Each(lista, UpsertOf)
      ensures arquivos == old(arquivos) && familias == old(familias) && series == old(series) && atributos == old(atributos)
    {
      var i := 0;
      while i < |lista|
        invariant 0 <= i <= |lista| && Valid()
        invariant valores == UpsertAll(old(valores), lista[..i])
        invariant log == old(log) + Each(lista[..i], UpsertOf)
        invariant arquivos == old(arquivos) && familias == old(familias) && series == old(series) && atributos == old(atributos)
      {
        var valor := lista[i];
        ghost var done := lista[..i];
        assert lista[..i + 1] == done + [valor];
        assert (done + [valor])[..|done|] == done;
        assert UpsertAll(old(valores), done + [valor]) == Upsert(UpsertAll(old(valores), done), valor);
        EachAppend(done, [valor], UpsertOf);
        ExecuteUpsert(valor);
        i := i + 1;
      }
      assert lista[..i] == lista;
    }

    /** GetValorAsync. */
    method GetValor(nomeSerie: string, nomeAtributo: string, dataInicioVigencia: DateOnly) returns (r: Option<ValorPostgres>)
      ensures r == FindValor(valores, nomeSerie, nomeAtributo, dataInicioVigencia)
    {
      r := FindValor(valores, nomeSerie, nomeAtributo, dataInicioVigencia);
    }

    /** GetValoresComFiltrosAsync: the command text, its parameters and the rows read. */
    method GetValoresComFiltros(f: ValorFilter) returns (sql: string, parameters: seq<Parameter>, r: seq<ValorPostgres>)
      ensures sql == SelectValor + " " + WhereClause(Each(Clauses(f), QuotedText))
      ensures parameters == Each(Clauses(f), ParameterOf)
      ensures r == Selected(valores, f)
    {
      var conditions, whereClause;
      conditions, parameters, whereClause := BuildFiltros(f);
      sql := SelectValor + " " + whereClause;
      r := Selected(valores, f);
    }

    /** `TRUNCATE TABLE <id>`: the named table is emptied, or the command
        fails on a name that resolves to no table and nothing changes. */
    method Truncate(id: string, quoted: bool) returns (r: Result<(), SqlError>)
      requires Valid()
      modifies this
      ensures Valid()
      ensures r == (if ResolveTable(id, quoted).Ok? then Ok(()) else Err(ResolveTable(id, quoted).error))
      ensures var t := ResolveTable(id, quoted);
        && arquivos == (if t == Ok("Arquivo") then map[] else old(arquivos))
        && familias == (if t == Ok("Familia") then map[] else old(familias))
        && series == (if t == Ok("Serie") then map[] else old(series))
        && atributos == (if t == Ok("Atributo") then map[] else old(atributos))
        && valores == (if t == Ok("Valor") then [] else old(valores))
      ensures log == old(log) + [TruncateStatement(id, quoted)]
    {
      log := log + [TruncateStatement(id, quoted)];
      var target := ResolveTable(id, quoted);
      if target.Err? {
        return Err(target.error);
      }
      var name := target.value;
      if name == "Arquivo" {
        arquivos := map[];
      } else if name == "Familia" {
        familias := map[];
      } else if name == "Serie" {
        series := map[];
      } else if name == "Atributo" {
        atributos := map[];
      } else {
        valores := [];
      }
      r := Ok(());
    }

    /** DeleteAllAsync as written: `TRUNCATE TABLE valor` names no table, the
        command fails and every table is left as it was. */
    method DeleteAllAsWritten() returns (r: Result<(), SqlError>)
      requires Valid()
      modifies this
      ensures Valid() && r == Err(UndefinedTable("valor"))
      ensures arquivos == old(arquivos) && familias == old(familias) && series == old(series)
      ensures atributos == old(atributos) && valores == old(valores)
      ensures log == old(log) + [TruncateStatement("valor", false)]
    {
      UnquotedNeverResolves("valor");
      assert FoldIdentifier("valor", false) == "valor";
      r := Truncate("valor", false);
    }

    /** DeleteAllAsync with the table name quoted as the schema spells it: "Valor" is emptied. */
    method DeleteAll() returns (r: Result<(), SqlError>)
      requires Valid()
      modifies this
      ensures Valid() && r == Ok(()) && valores == []
      ensures arquivos == old(arquivos) && familias == old(familias) && series == old(series) && atributos == old(atributos)
      ensures log == old(log) + [TruncateStatement("Valor", true)]
    {
      UnquotedNeverResolves("Valor");
      r := Truncate("Valor", true);
    }
  }
}
