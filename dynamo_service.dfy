/** BenchmarkDynamoDbService: the write paths (one put per value, or
    deduplicated batches of 25), the read loops that enumerate distinct values
    and their cross products and concatenate what each repository call
    answers, and the generator of test data. */
module DynamoService {
  import opened Wrappers
  import opened Dates
  import opened Decimals
  import opened Sequences
  import opened Models
  import opened DynamoItems
  import opened DynamoFilters
  import opened DynamoTable
  import opened DynamoQueries
  import opened DynamoRepository

  // ---------------------------------------------------------------------------
  // The lists the loops enumerate

  /** The anonymous key InsertBatch deduplicates by. */
  function DedupKey(v: ValorDynamoDB): (string, string, DateOnly)
  {
    (v.nomeSerie, v.nomeAtributo, v.dataInicioVigencia)
  }

  /** Two values share the dedup key exactly when they share the table's primary key. */
  lemma DedupKeyIsPrimaryKey(a: ValorDynamoDB, b: ValorDynamoDB)
    ensures DedupKey(a) == DedupKey(b) <==> ValorKey(a) == ValorKey(b)
  {
    ValorKeyIff(a, b);
  }

  function NomeFamilia(v: ValorDynamoDB): string { v.nomeFamilia }
  function NomeSerie(v: ValorDynamoDB): string { v.nomeSerie }
  function NomeAtributo(v: ValorDynamoDB): string { v.nomeAtributo }
  function DataInicioVigencia(v: ValorDynamoDB): DateOnly { v.dataInicioVigencia }

  /** listaFamilia, listaSerie, listaAtributos, listaDataInicioVigencia:
      valores.Select(field).Distinct(). */
  function ListaFamilia(valores: seq<ValorDynamoDB>): seq<string> { Distinct(Each(valores, NomeFamilia)) }
  function ListaSerie(valores: seq<ValorDynamoDB>): seq<string> { Distinct(Each(valores, NomeSerie)) }
  function ListaAtributo(valores: seq<ValorDynamoDB>): seq<string> { Distinct(Each(valores, NomeAtributo)) }
  function ListaData(valores: seq<ValorDynamoDB>): seq<DateOnly> { Distinct(Each(valores, DataInicioVigencia)) }

  /** Each distinct list holds no value twice and holds exactly the values
      some input carries. */
  lemma ListasProps(valores: seq<ValorDynamoDB>)
    ensures forall i, j :: 0 <= i < j < |ListaFamilia(valores)| ==> ListaFamilia(valores)[i] != ListaFamilia(valores)[j]
    ensures forall i, j :: 0 <= i < j < |ListaSerie(valores)| ==> ListaSerie(valores)[i] != ListaSerie(valores)[j]
    ensures forall i, j :: 0 <= i < j < |ListaAtributo(valores)| ==> ListaAtributo(valores)[i] != ListaAtributo(valores)[j]
    ensures forall i, j :: 0 <= i < j < |ListaData(valores)| ==> ListaData(valores)[i] != ListaData(valores)[j]
    ensures forall f :: f in ListaFamilia(valores) <==> exists v :: v in valores && v.nomeFamilia == f
    ensures forall s :: s in ListaSerie(valores) <==> exists v :: v in valores && v.nomeSerie == s
    ensures forall a :: a in ListaAtributo(valores) <==> exists v :: v in valores && v.nomeAtributo == a
    ensures forall d :: d in ListaData(valores) <==> exists v :: v in valores && v.dataInicioVigencia == d
  {
    ProjectedDistinct(valores, NomeFamilia);
    ProjectedDistinct(valores, NomeSerie);
    ProjectedDistinct(valores, NomeAtributo);
    ProjectedDistinct(valores, DataInicioVigencia);
  }

  // ---------------------------------------------------------------------------
  // One repository call of a read loop

  /** The repository call one iteration makes: a named query, the filtered
      scan, or the lookup by primary key. */
  datatype Call =
    | ByFamiliaData(nomeFamilia: string, data: DateOnly)
    | ByFamilia(nomeFamilia: string)
    | BySerieFamiliaData(nomeSerie: string, nomeFamilia: string, data: DateOnly)
    | BySerieFamilia(nomeSerie: string, nomeFamilia: string)
    | BySerieAtributoData(nomeSerie: string, nomeAtributo: string, data: DateOnly)
    | BySerieAtributo(nomeSerie: string, nomeAtributo: string)
    | ByItemSerieAtributo(nomeSerie: string, sortKey: string)
    | BySerieData(nomeSerie: string, data: DateOnly)
    | BySerie(nomeSerie: string)
    | Filtered(filter: ScanFilter)
    | ByKey(nomeSerie: string, sortKey: string)

  predicate IsQuery(c: Call)
  {
    !c.Filtered? && !c.ByKey?
  }

  /** The QueryRequest a named-query call sends. */
  function RequestOf(c: Call): QueryRequest
    requires IsQuery(c)
  {
    match c
    case ByFamiliaData(f, d) => FamiliaDataRequest(f, d)
    case ByFamilia(f) => FamiliaRequest(f)
    case BySerieFamiliaData(s, f, d) => SerieFamiliaDataRequest(s, f, d)
    case BySerieFamilia(s, f) => SerieFamiliaRequest(s, f)
    case BySerieAtributoData(s, a, d) => SerieAtributoDataRequest(s, a, d)
    case BySerieAtributo(s, a) => SerieAtributoRequest(s, a)
    case ByItemSerieAtributo(s, k) => ItemSerieAtributoRequest(s, k)
    case BySerieData(s, d) => SerieDataRequest(s, d)
    case BySerie(s) => SerieRequest(s)
  }

  /** What one call answers with against the table: the list AddRange
      appends, or the one value Add appends; a conversion failure is the
      exception that ends the loop. */
  function Answer(items: seq<Item>, pageItems: nat, c: Call): Result<seq<ValorDynamoDB>, ConversionError>
  {
    match c
    case Filtered(f) => ConvertAll(ScanItems(items, f, pageItems))
    case ByKey(s, k) =>
      var v :- KeyItem(items, s, k);
      Ok([v])
    case _ => RunQuery(items, RequestOf(c), pageItems)
  }

  function AnswerOf(items: seq<Item>, pageItems: nat): Call -> Result<seq<ValorDynamoDB>, ConversionError>
  {
    c => Answer(items, pageItems, c)
  }

  /** A loop's result list: the answers of its calls concatenated in call
      order, or the first failure. */
  function Answers(items: seq<Item>, pageItems: nat, calls: seq<Call>): Result<seq<ValorDynamoDB>, ConversionError>
  {
    FlatMapResult(calls, AnswerOf(items, pageItems))
  }

  /** What a value answered by a call is known to satisfy: the equalities the
      call's arguments impose on the fields read back. */
  predicate Admits(c: Call, v: ValorDynamoDB)
  {
    match c
    case ByFamiliaData(f, d) => v.nomeFamilia == f && v.dataInicioVigencia == d
    case ByFamilia(f) => v.nomeFamilia == f
    case BySerieFamiliaData(s, f, d) => v.nomeFamilia == f && v.nomeSerie == s && v.dataInicioVigencia == d
    case BySerieFamilia(s, f) => v.nomeFamilia == f && v.nomeSerie == s
    case BySerieAtributoData(s, a, d) => v.nomeSerie == s && v.nomeAtributo == a && v.dataInicioVigencia == d
    case BySerieAtributo(s, a) => v.nomeSerie == s && v.nomeAtributo == a
    case ByItemSerieAtributo(s, _) => v.nomeSerie == s
    case BySerieData(s, d) => v.nomeSerie == s && v.dataInicioVigencia == d
    case BySerie(s) => v.nomeSerie == s
    case Filtered(f) => FieldsSatisfy(v, f)
    case ByKey(s, _) => v.nomeSerie == s
  }

  /** Which written values a call selects, stated on the value's own fields:
      the query's key condition and filter, the scan's filter, or the
      lookup's key. Unlike Admits, a composite sort key is known here, since
      the value was written and not read back. */
  predicate Picks(c: Call, v: ValorDynamoDB)
  {
    match c
    case ByItemSerieAtributo(s, k) => v.nomeSerie == s && SortKey(v.nomeAtributo, v.dataInicioVigencia) == k
    case ByKey(s, k) => v.nomeSerie == s && SortKey(v.nomeAtributo, v.dataInicioVigencia) == k
    case Filtered(f) => ValorSatisfies(v, f)
    case _ => Admits(c, v)
  }

  /** The item a primary-key lookup finds carries the series it was asked for. */
  lemma KeyItemSerie(items: seq<Item>, s: string, k: string)
    requires KeyItem(items, s, k).Ok?
    ensures KeyItem(items, s, k).value.nomeSerie == s
  {
    var found := Lookup(items, Key(Str(s), Str(k)));
    var item := found.value;
    assert KeyOf(item) == Ok(Key(Str(s), Str(k)));
    ConvertedFields(item, InvariantCulture, KeyItem(items, s, k).value);
  }

  /** Every value a named query answers with satisfies the query's equalities. */
  lemma QueryAdmits(items: seq<Item>, pageItems: nat, c: Call, v: ValorDynamoDB)
    requires IsQuery(c)
    requires RunQuery(items, RequestOf(c), pageItems).Ok? && v in RunQuery(items, RequestOf(c), pageItems).value
    ensures Admits(c, v)
  {
    var q := RequestOf(c);
    var vs := RunQuery(items, q, pageItems).value;
    var i :| 0 <= i < |vs| && vs[i] == v;
    QueryResultsFromSelected(items, q, pageItems, i);
    var item :| item in items && Selects(q, item) && ConvertFromItemInvariant(item) == Ok(v);
    match c
    case ByFamiliaData(f, d) => FamiliaDataSelectsRead(f, d, item, v);
    case ByFamilia(f) => FamiliaSelectsRead(f, item, v);
    case BySerieFamiliaData(s, f, d) => SerieFamiliaDataSelectsRead(s, f, d, item, v);
    case BySerieFamilia(s, f) => SerieFamiliaSelectsRead(s, f, item, v);
    case BySerieAtributoData(s, a, d) => SerieAtributoDataSelectsRead(s, a, d, item, v);
    case BySerieAtributo(s, a) => SerieAtributoSelectsRead(s, a, item, v);
    case ByItemSerieAtributo(s, k) => ItemSerieAtributoSelectsRead(s, k, item, v);
    case BySerieData(s, d) => SerieDataSelectsRead(s, d, item, v);
    case BySerie(s) => SerieSelectsRead(s, item, v);
  }

  /** Every value a call answers with satisfies the call's equalities. */
  lemma AnswerAdmits(items: seq<Item>, pageItems: nat, c: Call, v: ValorDynamoDB)
    requires Answer(items, pageItems, c).Ok? && v in Answer(items, pageItems, c).value
    ensures Admits(c, v)
  {
    match c
    case Filtered(f) => ScanResults(items, f, pageItems);
    case ByKey(s, k) => KeyItemSerie(items, s, k);
    case _ => QueryAdmits(items, pageItems, c, v);
  }

  /** Every value a loop collects was answered by one of its calls and
      satisfies that call's equalities. */
  lemma AnswersAdmit(items: seq<Item>, pageItems: nat, calls: seq<Call>)
    ensures Answers(items, pageItems, calls).Ok? ==>
      forall v :: v in Answers(items, pageItems, calls).value ==> exists c :: c in calls && Admits(c, v)
  {
    var answer := AnswerOf(items, pageItems);
    FlatMapResultMembers(calls, answer);
    if Answers(items, pageItems, calls).Ok? {
      forall v | v in Answers(items, pageItems, calls).value ensures exists c :: c in calls && Admits(c, v) {
        var i :| 0 <= i < |calls| && answer(calls[i]).Ok? && v in answer(calls[i]).value;
        AnswerAdmits(items, pageItems, calls[i], v);
        assert calls[i] in calls;
      }
    }
  }

  // ---------------------------------------------------------------------------
  // The calls each read loop makes, in loop order

  /** The lookup key GetItemData and GetItemSerieAtributo build: the series
      and the composite `attribute#yyyyMMdd` sort key. */
  function KeyCall(v: ValorDynamoDB): Call { ByKey(v.nomeSerie, SortKey(v.nomeAtributo, v.dataInicioVigencia)) }
  function ItemSerieAtributoCall(v: ValorDynamoDB): Call { ByItemSerieAtributo(v.nomeSerie, SortKey(v.nomeAtributo, v.dataInicioVigencia)) }
  function SerieAtributoDataCall(v: ValorDynamoDB): Call { BySerieAtributoData(v.nomeSerie, v.nomeAtributo, v.dataInicioVigencia) }
  function FamiliaDataCall(f: string, d: DateOnly): Call { ByFamiliaData(f, d) }
  function FamiliaCall(f: string): Call { ByFamilia(f) }
  function SerieFamiliaDataCall(d: DateOnly, f: string, s: string): Call { BySerieFamiliaData(s, f, d) }
  function SerieFamiliaCall(f: string, s: string): Call { BySerieFamilia(s, f) }
  function SerieAtributoCall(s: string, a: string): Call { BySerieAtributo(s, a) }
  function SerieDataCall(d: DateOnly, s: string): Call { BySerieData(s, d) }
  function SerieCall(s: string): Call { BySerie(s) }

  /** The named arguments each scan loop passes to GetValoresComFiltrosAsync. */
  function FiltroFamiliaData(f: string, d: DateOnly): ScanFilter { NoFilter.(nomeFamilia := Some(f), dataInicioVigencia := Some(d)) }
  function FiltroSerieFamiliaData(s: string, f: string, d: DateOnly): ScanFilter
  {
    NoFilter.(nomeSerie := Some(s), nomeFamilia := Some(f), dataInicioVigencia := Some(d))
  }
  function FiltroSerieFamilia(s: string, f: string): ScanFilter { NoFilter.(nomeSerie := Some(s), nomeFamilia := Some(f)) }
  function FiltroSerieData(s: string, d: DateOnly): ScanFilter { NoFilter.(nomeSerie := Some(s), dataInicioVigencia := Some(d)) }
  function FiltroSerieAtributoData(s: string, a: string, d: DateOnly): ScanFilter
  {
    NoFilter.(nomeSerie := Some(s), nomeAtributo := Some(a), dataInicioVigencia := Some(d))
  }
  function FiltroSerieAtributo(s: string, a: string): ScanFilter { NoFilter.(nomeSerie := Some(s), nomeAtributo := Some(a)) }
  function FiltroFamiliaAtributoData(f: string, a: string, d: DateOnly): ScanFilter
  {
    NoFilter.(nomeFamilia := Some(f), nomeAtributo := Some(a), dataInicioVigencia := Some(d))
  }
  function FiltroFamiliaAtributo(f: string, a: string): ScanFilter { NoFilter.(nomeFamilia := Some(f), nomeAtributo := Some(a)) }
  function FiltroFamiliaSortKey(f: string, k: string): ScanFilter { NoFilter.(nomeFamilia := Some(f), nomeAtributoDataInicioVigencia := Some(k)) }
  function FiltroSerieSortKey(s: string, k: string): ScanFilter { NoFilter.(nomeSerie := Some(s), nomeAtributoDataInicioVigencia := Some(k)) }

  function FiltroFamiliaDataCall(f: string, d: DateOnly): Call { Filtered(FiltroFamiliaData(f, d)) }
  function FiltroSerieFamiliaDataCall(d: DateOnly, f: string, s: string): Call { Filtered(FiltroSerieFamiliaData(s, f, d)) }
  function FiltroSerieFamiliaCall(f: string, s: string): Call { Filtered(FiltroSerieFamilia(s, f)) }
  function FiltoFamiliaCall(d: DateOnly, f: string): Call { Filtered(FiltroFamiliaData(f, d)) }
  function FiltoSerieCall(d: DateOnly, s: string): Call { Filtered(FiltroSerieData(s, d)) }
  function FiltoSerieAtributoDataCall(v: ValorDynamoDB): Call
  {
    Filtered(FiltroSerieAtributoData(v.nomeSerie, v.nomeAtributo, v.dataInicioVigencia))
  }
  function FiltoSerieAtributoCall(s: string, a: string): Call { Filtered(FiltroSerieAtributo(s, a)) }
  function FiltroItemFamiliaAtributoDataCall(v: ValorDynamoDB): Call
  {
    Filtered(FiltroFamiliaSortKey(v.nomeFamilia, SortKey(v.nomeAtributo, v.dataInicioVigencia)))
  }
  function FiltroFamiliaAtributoDataCall(v: ValorDynamoDB): Call
  {
    Filtered(FiltroFamiliaAtributoData(v.nomeFamilia, v.nomeAtributo, v.dataInicioVigencia))
  }
  function FiltroFamiliaAtributoCall(v: ValorDynamoDB): Call { Filtered(FiltroFamiliaAtributo(v.nomeFamilia, v.nomeAtributo)) }
  function FiltoSerieDataCall(v: ValorDynamoDB): Call
  {
    Filtered(FiltroSerieSortKey(v.nomeSerie, SortKey(v.nomeAtributo, v.dataInicioVigencia)))
  }

  // ---------------------------------------------------------------------------
  // The test-data generator

  /** What CriarDados draws from Faker and reads from the clock, as functions
      of the loop position at which it draws or reads them: the family name and
      file name once per family, the series name once per series, today's date
      once per attribute, and the product name, the amount and the update
      instant once per value. */
  datatype Fontes = Fontes(
    familia: nat -> string,
    arquivo: nat -> string,
    serie: (nat, nat) -> string,
    hoje: (nat, nat, nat) -> DateOnly,
    produto: (nat, nat, nat, nat) -> string,
    valor: (nat, nat, nat, nat) -> Decimal,
    agora: (nat, nat, nat, nat) -> Instant)

  /** The value CriarDados appends for family i, series j, attribute k, day d. */
  function Gerado(fo: Fontes, i: nat, j: nat, k: nat, d: nat): ValorDynamoDB
  {
    var data := Vigencia(fo.hoje(i, j, k), d + 1);
    ValorDynamoDB(fo.familia(i), fo.serie(i, j), fo.produto(i, j, k, d), Some(fo.arquivo(i)),
      fo.valor(i, j, k, d), data, data, fo.agora(i, j, k, d))
  }

  function Gerador(fo: Fontes): (nat, nat, nat, nat) -> ValorDynamoDB
  {
    (i: nat, j: nat, k: nat, d: nat) => Gerado(fo, i, j, k, d)
  }

  /** The list CriarDados returns. */
  function Dados(fo: Fontes, qtdFamilia: int, qtdSerie: int, qtdAtributo: int, qtdDias: int): seq<ValorDynamoDB>
  {
    Grid4(Count(qtdFamilia), Count(qtdSerie), Count(qtdAtributo), Count(qtdDias), Gerador(fo))
  }

  /** AddDays(-1) stays above 0001-01-01 for every attribute the loops reach. */
  predicate DiasAlcancaveis(fo: Fontes, qtdFamilia: int, qtdSerie: int, qtdAtributo: int, qtdDias: int)
  {
    forall i: nat, j: nat, k: nat :: i < qtdFamilia && j < qtdSerie && k < qtdAtributo ==>
      Alcanca(fo, i, j, k, qtdDias)
  }

  /** qtdDias steps back from the date read for attribute k of series j of
      family i stay on or after 0001-01-01. */
  predicate Alcanca(fo: Fontes, i: nat, j: nat, k: nat, qtdDias: int)
  {
    qtdDias <= DayNumber(fo.hoje(i, j, k))
  }

  /** Putting the values before i and then value i puts the values up to i + 1. */
  lemma InsertSeguinte(base: seq<Item>, valores: seq<ValorDynamoDB>, i: nat)
    requires i < |valores|
    ensures PutAll(base, BatchRequest(valores[..i + 1])) ==
      Put(PutAll(base, BatchRequest(valores[..i])), ConvertToItem(valores[i]))
  {
    assert valores[..i + 1] == valores[..i] + [valores[i]];
    BatchRequestAppend(valores[..i], [valores[i]]);
    var request := BatchRequest(valores[..i + 1]);
    assert request[..i] == BatchRequest(valores[..i]) && request[i] == ConvertToItem(valores[i]);
  }

  /** Every chunk InsertBatch sends is accepted: it has 1 to 25 values, and
      after deduplication no two of them share a primary key. */
  lemma LoteAceito(valores: seq<ValorDynamoDB>, i: nat)
    requires i < |Chunk(DistinctBy(valores, DedupKey), 25)|
    ensures !BatchRejected(BatchRequest(Chunk(DistinctBy(valores, DedupKey), 25)[i]))
  {
    var unicos := DistinctBy(valores, DedupKey);
    var lotes := Chunk(unicos, 25);
    DistinctByProps(valores, DedupKey);
    ChunkProps(unicos, 25);
    var lote := lotes[i];
    FlattenPartKeysDistinct(lotes, i, DedupKey);
    forall p, q | 0 <= p < q < |lote| ensures ValorKey(lote[p]) != ValorKey(lote[q]) {
      DedupKeyIsPrimaryKey(lote[p], lote[q]);
    }
    BatchAcceptedIff(lote);
  }

  /** Sending the chunks up to i and then chunk i puts the values of the
      chunks up to i + 1, in order. */
  lemma LoteSeguinte(base: seq<Item>, lotes: seq<seq<ValorDynamoDB>>, i: nat)
    requires i < |lotes|
    ensures PutAll(base, BatchRequest(Flatten(lotes[..i + 1]))) ==
      PutAll(PutAll(base, BatchRequest(Flatten(lotes[..i]))), BatchRequest(lotes[i]))
  {
    assert lotes[..i + 1] == lotes[..i] + [lotes[i]];
    FlattenSnoc(lotes[..i], lotes[i]);
    BatchRequestAppend(Flatten(lotes[..i]), lotes[i]);
    BatchRequestProps(Flatten(lotes[..i]));
    BatchRequestProps(lotes[i]);
    PutAllAppend(base, BatchRequest(Flatten(lotes[..i])), BatchRequest(lotes[i]));
  }

  /** One pass of a foreach over calls: call i's answer either ends the whole
      with its failure or extends the answers so far. */
  lemma EachStep(calls: seq<Call>, i: nat, answer: Call -> Result<seq<ValorDynamoDB>, ConversionError>,
                 acc: seq<ValorDynamoDB>, a: Result<seq<ValorDynamoDB>, ConversionError>)
    requires i < |calls| && FlatMapResult(calls[..i], answer) == Ok(acc) && a == answer(calls[i])
    ensures a.Err? ==> FlatMapResult(calls, answer) == a
    ensures a.Ok? ==> FlatMapResult(calls[..i + 1], answer) == Ok(acc + a.value)
  {
    assert calls[..i + 1] == calls[..i] + [calls[i]];
    FlatMapResultSnoc(calls[..i], calls[i], answer);
    if a.Err? {
      assert calls == calls[..i + 1] + calls[i + 1..];
      FlatMapResultAppend(calls[..i + 1], calls[i + 1..], answer);
    }
  }

  /** One pass of the outer loop of a nested foreach: the inner loop's
      answers for xs[i] either end the whole with its failure or extend the
      answers so far. */
  lemma CrossStep<A, B>(xs: seq<A>, ys: seq<B>, f: (A, B) -> Call, i: nat,
                        answer: Call -> Result<seq<ValorDynamoDB>, ConversionError>,
                        acc: seq<ValorDynamoDB>, a: Result<seq<ValorDynamoDB>, ConversionError>)
    requires i < |xs| && FlatMapResult(Cross(xs[..i], ys, f), answer) == Ok(acc)
    requires a == FlatMapResult(Row(xs[i], ys, f), answer)
    ensures a.Err? ==> FlatMapResult(Cross(xs, ys, f), answer) == a
    ensures a.Ok? ==> FlatMapResult(Cross(xs[..i + 1], ys, f), answer) == Ok(acc + a.value)
  {
    assert xs[..i + 1][..i] == xs[..i];
    FlatMapResultAppend(Cross(xs[..i], ys, f), Row(xs[i], ys, f), answer);
    if a.Err? {
      assert xs == xs[..i + 1] + xs[i + 1..];
      CrossAppend(xs[..i + 1], xs[i + 1..], ys, f);
      FlatMapResultAppend(Cross(xs[..i + 1], ys, f), Cross(xs[i + 1..], ys, f), answer);
    }
  }

  /** The same step for three nested loops. */
  lemma Cross3Step<A, B, D>(xs: seq<A>, ys: seq<B>, zs: seq<D>, f: (A, B, D) -> Call, i: nat,
                            answer: Call -> Result<seq<ValorDynamoDB>, ConversionError>,
                            acc: seq<ValorDynamoDB>, a: Result<seq<ValorDynamoDB>, ConversionError>)
    requires i < |xs| && FlatMapResult(Cross3(xs[..i], ys, zs, f), answer) == Ok(acc)
    requires a == FlatMapResult(Plane(xs[i], ys, zs, f), answer)
    ensures a.Err? ==> FlatMapResult(Cross3(xs, ys, zs, f), answer) == a
    ensures a.Ok? ==> FlatMapResult(Cross3(xs[..i + 1], ys, zs, f), answer) == Ok(acc + a.value)
  {
    assert xs[..i + 1][..i] == xs[..i];
    FlatMapResultAppend(Cross3(xs[..i], ys, zs, f), Plane(xs[i], ys, zs, f), answer);
    if a.Err? {
      assert xs == xs[..i + 1] + xs[i + 1..];
      Cross3Append(xs[..i + 1], xs[i + 1..], ys, zs, f);
      FlatMapResultAppend(Cross3(xs[..i + 1], ys, zs, f), Cross3(xs[i + 1..], ys, zs, f), answer);
    }
  }

  // ---------------------------------------------------------------------------
  // The service

  class BenchmarkDynamoDbService {
    const repository: DynamoDBRepository

    constructor(repository: DynamoDBRepository)
      ensures this.repository == repository
    {
      this.repository := repository;
    }

    /** GetBatch: CaptureBatchAsync's list, unchanged. */
    method GetBatch(maxItens: int, limit: int, pages: seq<ScanPage>) returns (r: Result<seq<ValorDynamoDB>, ConversionError>)
      requires ScanEnds(pages)
      ensures r == ConvertAll(ScannedItems(pages[..PagesCaptured(pages, limit)]))
    {
      r := repository.CaptureBatch(maxItens, limit, pages);
    }

    /** Insert: one InsertValorAsync per value, in order; the input is returned. */
    method Insert(valores: seq<ValorDynamoDB>) returns (r: seq<ValorDynamoDB>)
      requires repository.Valid()
      modifies repository
      ensures repository.Valid() && r == valores
      ensures repository.items == PutAll(old(repository.items), BatchRequest(valores))
    {
      var i := 0;
      while i < |valores|
        invariant 0 <= i <= |valores| && repository.Valid()
        invariant repository.items == PutAll(old(repository.items), BatchRequest(valores[..i]))
      {
        repository.InsertValor(valores[i]);
        InsertSeguinte(old(repository.items), valores, i);
        i := i + 1;
      }
      assert valores[..i] == valores;
      r := valores;
    }

    /** InsertBatch: the first value per (series, attribute, start date), in
        chunks of 25, one BatchInsertValoresAsync per chunk in order. No batch
        is refused: each has 1 to 25 values with distinct primary keys. The
        ghost batches are the arguments of the calls. */
    method InsertBatch(valores: seq<ValorDynamoDB>) returns (r: seq<ValorDynamoDB>, ghost batches: seq<seq<ValorDynamoDB>>)
      requires repository.Valid()
      modifies repository
      ensures repository.Valid()
      ensures r == DistinctBy(valores, DedupKey) && batches == Chunk(r, 25)
      ensures repository.items == PutAll(old(repository.items), BatchRequest(r))
    {
      var unicos := DistinctBy(valores, DedupKey);
      var lotes := Chunk(unicos, 25);
      var i := 0;
      assert lotes[..0] == [];
      while i < |lotes|
        invariant 0 <= i <= |lotes| && repository.Valid()
        invariant repository.items == PutAll(old(repository.items), BatchRequest(Flatten(lotes[..i])))
      {
        var lote := lotes[i];
        LoteAceito(valores, i);
        var result := repository.BatchInsertValores(lote);
        LoteSeguinte(old(repository.items), lotes, i);
        i := i + 1;
      }
      assert lotes[..i] == lotes;
      ChunkProps(unicos, 25);
      r := unicos;
      batches := lotes;
    }

    /** One call of a read loop. */
    method Ask(c: Call) returns (r: Result<seq<ValorDynamoDB>, ConversionError>)
      ensures r == Answer(repository.items, repository.pageItems, c)
    {
      match c {
        case Filtered(f) =>
          var request, found := repository.GetValoresComFiltros(f);
          r := found;
        case ByKey(s, k) =>
          var v := repository.GetValorKeyItem(s, k);
          r := if v.Ok? then Ok([v.value]) else Err(v.error);
        case _ =>
          r := repository.Query(RequestOf(c));
      }
    }

    /** `foreach x in xs`: one call per element, the answers appended in order. */
    method RunEach<A>(xs: seq<A>, f: A -> Call) returns (r: Result<seq<ValorDynamoDB>, ConversionError>)
      ensures r == Answers(repository.items, repository.pageItems, Each(xs, f))
    {
      ghost var answer := AnswerOf(repository.items, repository.pageItems);
      ghost var calls := Each(xs, f);
      var acc: seq<ValorDynamoDB> := [];
      var i := 0;
      assert calls[..0] == [];
      while i < |xs|
        invariant 0 <= i <= |xs|
        invariant FlatMapResult(calls[..i], answer) == Ok(acc)
      {
        var a := Ask(f(xs[i]));
        EachStep(calls, i, answer, acc, a);
        if a.Err? {
          return a;
        }
        acc := acc + a.value;
        i := i + 1;
      }
      assert calls[..i] == calls;
      r := Ok(acc);
    }

    /** `foreach x in xs { foreach y in ys }`. */
    method RunCross<A, B>(xs: seq<A>, ys: seq<B>, f: (A, B) -> Call) returns (r: Result<seq<ValorDynamoDB>, ConversionError>)
      ensures r == Answers(repository.items, repository.pageItems, Cross(xs, ys, f))
    {
      ghost var answer := AnswerOf(repository.items, repository.pageItems);
      var acc: seq<ValorDynamoDB> := [];
      var i := 0;
      while i < |xs|
        invariant 0 <= i <= |xs|
        invariant FlatMapResult(Cross(xs[..i], ys, f), answer) == Ok(acc)
      {
        var x := xs[i];
        var g := y => f(x, y);
        RowIsEach(x, ys, f, g);
        var a := RunEach(ys, g);
        CrossStep(xs, ys, f, i, answer, acc, a);
        if a.Err? {
          return a;
        }
        acc := acc + a.value;
        i := i + 1;
      }
      assert xs[..i] == xs;
      r := Ok(acc);
    }

    /** `foreach x in xs { foreach y in ys { foreach z in zs } }`. */
    method RunCross3<A, B, D>(xs: seq<A>, ys: seq<B>, zs: seq<D>, f: (A, B, D) -> Call)
      returns (r: Result<seq<ValorDynamoDB>, ConversionError>)
      ensures r == Answers(repository.items, repository.pageItems, Cross3(xs, ys, zs, f))
    {
      ghost var answer := AnswerOf(repository.items, repository.pageItems);
      var acc: seq<ValorDynamoDB> := [];
      var i := 0;
      while i < |xs|
        invariant 0 <= i <= |xs|
        invariant FlatMapResult(Cross3(xs[..i], ys, zs, f), answer) == Ok(acc)
      {
        var x := xs[i];
        var g := (y, z) => f(x, y, z);
        PlaneIsCross(x, ys, zs, f, g);
        var a := RunCross(ys, zs, g);
        Cross3Step(xs, ys, zs, f, i, answer, acc, a);
        if a.Err? {
          return a;
        }
        acc := acc + a.value;
        i := i + 1;
      }
      assert xs[..i] == xs;
      r := Ok(acc);
    }

    /** GetItemData: for each value, the lookup by its series and composite sort key (Add). */
    method GetItemData(valores: seq<ValorDynamoDB>) returns (r: Result<seq<ValorDynamoDB>, ConversionError>)
      ensures r == Answers(repository.items, repository.pageItems, Each(valores, KeyCall))
    {
      r := RunEach(valores, KeyCall);
    }

    /** GetFamiliaData: for each family, for each start date, the family/date query. */
    method GetFamiliaData(valores: seq<ValorDynamoDB>) returns (r: Result<seq<ValorDynamoDB>, ConversionError>)
      ensures r == Answers(repository.items, repository.pageItems, Cross(ListaFamilia(valores), ListaData(valores), FamiliaDataCall))
    {
      var listaFamilia := ListaFamilia(valores);
      var listaData := ListaData(valores);
      r := RunCross(listaFamilia, listaData, FamiliaDataCall);
    }

    /** GetFiltroFamiliaData: for each family, for each start date, the scan filtered by both. */
    method GetFiltroFamiliaData(valores: seq<ValorDynamoDB>) returns (r: Result<seq<ValorDynamoDB>, ConversionError>)
      ensures r == Answers(repository.items, repository.pageItems, Cross(ListaFamilia(valores), ListaData(valores), FiltroFamiliaDataCall))
    {
      var listaFamilia := ListaFamilia(valores);
      var listaData := ListaData(valores);
      r := RunCross(listaFamilia, listaData, FiltroFamiliaDataCall);
    }

    /** GetFamilia: for each family, the family query. */
    method GetFamilia(valores: seq<ValorDynamoDB>) returns (r: Result<seq<ValorDynamoDB>, ConversionError>)
      ensures r == Answers(repository.items, repository.pageItems, Each(ListaFamilia(valores), FamiliaCall))
    {
      var listaFamilia := ListaFamilia(valores);
      r := RunEach(listaFamilia, FamiliaCall);
    }

    /** GetSerieFamiliaData: for each start date, family and series, the series/family query filtered by the date. */
    method GetSerieFamiliaData(valores: seq<ValorDynamoDB>) returns (r: Result<seq<ValorDynamoDB>, ConversionError>)
      ensures r == Answers(repository.items, repository.pageItems, Cross3(ListaData(valores), ListaFamilia(valores), ListaSerie(valores), SerieFamiliaDataCall))
    {
      var listaFamilia := ListaFamilia(valores);
      var listaSerie := ListaSerie(valores);
      var listaData := ListaData(valores);
      r := RunCross3(listaData, listaFamilia, listaSerie, SerieFamiliaDataCall);
    }

    /** GetFiltroSerieFamiliaData: for each start date, family and series, the scan filtered by all three. */
    method GetFiltroSerieFamiliaData(valores: seq<ValorDynamoDB>) returns (r: Result<seq<ValorDynamoDB>, ConversionError>)
      ensures r == Answers(repository.items, repository.pageItems, Cross3(ListaData(valores), ListaFamilia(valores), ListaSerie(valores), FiltroSerieFamiliaDataCall))
    {
      var listaFamilia := ListaFamilia(valores);
      var listaSerie := ListaSerie(valores);
      var listaData := ListaData(valores);
      r := RunCross3(listaData, listaFamilia, listaSerie, FiltroSerieFamiliaDataCall);
    }

    /** GetSerieFamilia: for each family, for each series, the series/family query. */
    method GetSerieFamilia(valores: seq<ValorDynamoDB>) returns (r: Result<seq<ValorDynamoDB>, ConversionError>)
      ensures r == Answers(repository.items, repository.pageItems, Cross(ListaFamilia(valores), ListaSerie(valores), SerieFamiliaCall))
    {
      var listaFamilia := ListaFamilia(valores);
      var listaSerie := ListaSerie(valores);
      r := RunCross(listaFamilia, listaSerie, SerieFamiliaCall);
    }

    /** GetFiltroSerieFamilia: for each family, for each series, the scan filtered by both. */
    method GetFiltroSerieFamilia(valores: seq<ValorDynamoDB>) returns (r: Result<seq<ValorDynamoDB>, ConversionError>)
      ensures r == Answers(repository.items, repository.pageItems, Cross(ListaFamilia(valores), ListaSerie(valores), FiltroSerieFamiliaCall))
    {
      var listaFamilia := ListaFamilia(valores);
      var listaSerie := ListaSerie(valores);
      r := RunCross(listaFamilia, listaSerie, FiltroSerieFamiliaCall);
    }

    /** GetSerieAtributoData: for each value, the series/attribute query filtered by its start date. */
    method GetSerieAtributoData(valores: seq<ValorDynamoDB>) returns (r: Result<seq<ValorDynamoDB>, ConversionError>)
      ensures r == Answers(repository.items, repository.pageItems, Each(valores, SerieAtributoDataCall))
    {
      r := RunEach(valores, SerieAtributoDataCall);
    }

    /** GetItemSerieAtributo: for each value, the base-table query on its series and composite sort key. */
    method GetItemSerieAtributo(valores: seq<ValorDynamoDB>) returns (r: Result<seq<ValorDynamoDB>, ConversionError>)
      ensures r == Answers(repository.items, repository.pageItems, Each(valores, ItemSerieAtributoCall))
    {
      r := RunEach(valores, ItemSerieAtributoCall);
    }

    /** GetSerieAtributo: for each series, for each attribute, the series/attribute query. */
    method GetSerieAtributo(valores: seq<ValorDynamoDB>) returns (r: Result<seq<ValorDynamoDB>, ConversionError>)
      ensures r == Answers(repository.items, repository.pageItems, Cross(ListaSerie(valores), ListaAtributo(valores), SerieAtributoCall))
    {
      var listaSerie := ListaSerie(valores);
      var listaAtributos := ListaAtributo(valores);
      r := RunCross(listaSerie, listaAtributos, SerieAtributoCall);
    }

    /** GetSerieData: for each start date, for each series, the series/date query. */
    method GetSerieData(valores: seq<ValorDynamoDB>) returns (r: Result<seq<ValorDynamoDB>, ConversionError>)
      ensures r == Answers(repository.items, repository.pageItems, Cross(ListaData(valores), ListaSerie(valores), SerieDataCall))
    {
      var listaData := ListaData(valores);
      var listaSerie := ListaSerie(valores);
      r := RunCross(listaData, listaSerie, SerieDataCall);
    }

    /** GetSerie: for each series, the series query. */
    method GetSerie(valores: seq<ValorDynamoDB>) returns (r: Result<seq<ValorDynamoDB>, ConversionError>)
      ensures r == Answers(repository.items, repository.pageItems, Each(ListaSerie(valores), SerieCall))
    {
      var listaSerie := ListaSerie(valores);
      r := RunEach(listaSerie, SerieCall);
    }

    /** GetFiltoFamilia: for each start date, for each family, the scan filtered by both. */
    method GetFiltoFamilia(valores: seq<ValorDynamoDB>) returns (r: Result<seq<ValorDynamoDB>, ConversionError>)
      ensures r == Answers(repository.items, repository.pageItems, Cross(ListaData(valores), ListaFamilia(valores), FiltoFamiliaCall))
    {
      var listaFamilia := ListaFamilia(valores);
      var listaData := ListaData(valores);
      r := RunCross(listaData, listaFamilia, FiltoFamiliaCall);
    }

    /** GetFiltoSerie: for each start date, for each series, the scan filtered by both. */
    method GetFiltoSerie(valores: seq<ValorDynamoDB>) returns (r: Result<seq<ValorDynamoDB>, ConversionError>)
      ensures r == Answers(repository.items, repository.pageItems, Cross(ListaData(valores), ListaSerie(valores), FiltoSerieCall))
    {
      var listaSerie := ListaSerie(valores);
      var listaData := ListaData(valores);
      r := RunCross(listaData, listaSerie, FiltoSerieCall);
    }

    /** GetFiltoSerieAtributoData: for each value, the scan filtered by its series, attribute and start date (the two lists it builds go unused). */
    method GetFiltoSerieAtributoData(valores: seq<ValorDynamoDB>) returns (r: Result<seq<ValorDynamoDB>, ConversionError>)
      ensures r == Answers(repository.items, repository.pageItems, Each(valores, FiltoSerieAtributoDataCall))
    {
      var listaSerie := ListaSerie(valores);
      var listaData := ListaData(valores);
      r := RunEach(valores, FiltoSerieAtributoDataCall);
    }

    /** GetFiltoSerieAtributo: for each series, for each attribute, the scan filtered by both. */
    method GetFiltoSerieAtributo(valores: seq<ValorDynamoDB>) returns (r: Result<seq<ValorDynamoDB>, ConversionError>)
      ensures r == Answers(repository.items, repository.pageItems, Cross(ListaSerie(valores), ListaAtributo(valores), FiltoSerieAtributoCall))
    {
      var listaSerie := ListaSerie(valores);
      var listaAtributos := ListaAtributo(valores);
      r := RunCross(listaSerie, listaAtributos, FiltoSerieAtributoCall);
    }

    /** GetFiltroItemFamiliaAtributoData: for each value, the scan filtered by its family and composite sort key. */
    method GetFiltroItemFamiliaAtributoData(valores: seq<ValorDynamoDB>) returns (r: Result<seq<ValorDynamoDB>, ConversionError>)
      ensures r == Answers(repository.items, repository.pageItems, Each(valores, FiltroItemFamiliaAtributoDataCall))
    {
      r := RunEach(valores, FiltroItemFamiliaAtributoDataCall);
    }

    /** GetFiltroFamiliaAtributoData: for each value, the scan filtered by its family, attribute and start date. */
    method GetFiltroFamiliaAtributoData(valores: seq<ValorDynamoDB>) returns (r: Result<seq<ValorDynamoDB>, ConversionError>)
      ensures r == Answers(repository.items, repository.pageItems, Each(valores, FiltroFamiliaAtributoDataCall))
    {
      r := RunEach(valores, FiltroFamiliaAtributoDataCall);
    }

    /** GetFiltroFamiliaAtributo: for each value, the scan filtered by its family and attribute. */
    method GetFiltroFamiliaAtributo(valores: seq<ValorDynamoDB>) returns (r: Result<seq<ValorDynamoDB>, ConversionError>)
      ensures r == Answers(repository.items, repository.pageItems, Each(valores, FiltroFamiliaAtributoCall))
    {
      r := RunEach(valores, FiltroFamiliaAtributoCall);
    }

    /** GetFiltoSerieData: for each value, the scan filtered by its series and composite sort key (the two lists it builds go unused). */
    method GetFiltoSerieData(valores: seq<ValorDynamoDB>) returns (r: Result<seq<ValorDynamoDB>, ConversionError>)
      ensures r == Answers(repository.items, repository.pageItems, Each(valores, FiltoSerieDataCall))
    {
      var listaSerie := ListaSerie(valores);
      var listaData := ListaData(valores);
      r := RunEach(valores, FiltoSerieDataCall);
    }

    /** DeleteAllItens: DeleteAllItemsAsync. */
    method DeleteAllItens(pages: seq<ScanPage>) returns (r: Result<nat, DeleteError>)
      requires repository.Valid() && ScanEnds(pages)
      modifies repository
      ensures repository.Valid()
      ensures repository.items
        == WithoutAll(old(repository.items), DeletePassOf(ScannedItems(pages[..PagesUntilEnd(pages, 0)])).keys)
      ensures r == DeleteOutcomeAsWritten(pages)
    {
      r := repository.DeleteAllItems(pages);
    }

    /** CriarDados: four nested loops over families, series, attributes and
        days; each attribute starts from today and steps one day back before
        each value. */
    static method CriarDados(qtdFamilia: int, qtdSerie: int, qtdAtributo: int, qtdDias: int, fo: Fontes)
      returns (r: seq<ValorDynamoDB>)
      requires DiasAlcancaveis(fo, qtdFamilia, qtdSerie, qtdAtributo, qtdDias)
      ensures r == Dados(fo, qtdFamilia, qtdSerie, qtdAtributo, qtdDias)
    {
      var nf, ns, na, nd := Count(qtdFamilia), Count(qtdSerie), Count(qtdAtributo), Count(qtdDias);
      var g := Gerador(fo);
      r := [];
      var i := 0;
      while i < qtdFamilia
        invariant 0 <= i <= nf
        invariant r == Grid4(i, ns, na, nd, g)
      {
        var nomeFamilia := fo.familia(i);
        var nomeArquivo := fo.arquivo(i);
        var series := ValoresDaFamilia(fo, i, qtdSerie, qtdAtributo, qtdDias, nomeFamilia, nomeArquivo);
        r := r + series;
        Grid4Snoc(i, ns, na, nd, g);
        i := i + 1;
      }
    }

    /** The series loop of CriarDados, for one family. */
    static method ValoresDaFamilia(fo: Fontes, i: nat, qtdSerie: int, qtdAtributo: int, qtdDias: int,
                                   nomeFamilia: string, nomeArquivo: string)
      returns (r: seq<ValorDynamoDB>)
      requires nomeFamilia == fo.familia(i) && nomeArquivo == fo.arquivo(i)
      requires forall j: nat, k: nat :: j < qtdSerie && k < qtdAtributo ==> Alcanca(fo, i, j, k, qtdDias)
      ensures r == Grid3(i, Count(qtdSerie), Count(qtdAtributo), Count(qtdDias), Gerador(fo))
    {
      var ns, na, nd, g := Count(qtdSerie), Count(qtdAtributo), Count(qtdDias), Gerador(fo);
      r := [];
      var j := 0;
      while j < qtdSerie
        invariant 0 <= j <= ns
        invariant r == Grid3(i, j, na, nd, g)
      {
        var nomeSerie := fo.serie(i, j);
        var atributos := ValoresDaSerie(fo, i, j, qtdAtributo, qtdDias, nomeFamilia, nomeArquivo, nomeSerie);
        r := r + atributos;
        Grid3Snoc(i, j, na, nd, g);
        j := j + 1;
      }
    }

    /** The attribute loop of CriarDados, for one series of one family. */
    static method ValoresDaSerie(fo: Fontes, i: nat, j: nat, qtdAtributo: int, qtdDias: int,
                                 nomeFamilia: string, nomeArquivo: string, nomeSerie: string)
      returns (r: seq<ValorDynamoDB>)
      requires nomeFamilia == fo.familia(i) && nomeArquivo == fo.arquivo(i) && nomeSerie == fo.serie(i, j)
      requires forall k: nat :: k < qtdAtributo ==> Alcanca(fo, i, j, k, qtdDias)
      ensures r == Grid2(i, j, Count(qtdAtributo), Count(qtdDias), Gerador(fo))
    {
      var na, nd, g := Count(qtdAtributo), Count(qtdDias), Gerador(fo);
      r := [];
      var k := 0;
      while k < qtdAtributo
        invariant 0 <= k <= na
        invariant r == Grid2(i, j, k, nd, g)
      {
        var dias := ValoresDoAtributo(fo, i, j, k, qtdDias, nomeFamilia, nomeArquivo, nomeSerie);
        r := r + dias;
        k := k + 1;
      }
      assert k == na;
    }

    /** The innermost loop of CriarDados: today's date read once, then one
        value per day, each dated one day earlier than the previous one. */
    static method ValoresDoAtributo(fo: Fontes, i: nat, j: nat, k: nat, qtdDias: int,
                                    nomeFamilia: string, nomeArquivo: string, nomeSerie: string)
      returns (r: seq<ValorDynamoDB>)
      requires nomeFamilia == fo.familia(i) && nomeArquivo == fo.arquivo(i) && nomeSerie == fo.serie(i, j)
      requires Alcanca(fo, i, j, k, qtdDias)
      ensures r == Grid1(i, j, k, Count(qtdDias), Gerador(fo))
    {
      var nd, g := Count(qtdDias), Gerador(fo);
      var hoje := fo.hoje(i, j, k);
      var dataVigencia := hoje;
      r := [];
      var d := 0;
      while d < qtdDias
        invariant 0 <= d <= nd
        invariant dataVigencia == Vigencia(hoje, d)
        invariant r == Grid1(i, j, k, d, g)
      {
        VigenciaStep(hoje, d, dataVigencia);
        dataVigencia := PreviousDay(dataVigencia);
        var valor := ValorDynamoDB(nomeFamilia, nomeSerie, fo.produto(i, j, k, d), Some(nomeArquivo),
          fo.valor(i, j, k, d), dataVigencia, dataVigencia, fo.agora(i, j, k, d));
        assert valor == Gerado(fo, i, j, k, d);
        r := r + [valor];
        d := d + 1;
      }
      assert d == nd;
    }
  }
}
