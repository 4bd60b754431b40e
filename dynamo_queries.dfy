/** The named queries of DynamoDBRepository. Each Get*Async method sends one
    fixed QueryRequest: an index, a key condition and sometimes a filter, all
    equalities on the attributes the codec writes. Only the first response
    page is read. */
module DynamoQueries {
  import opened Wrappers
  import opened Dates
  import opened Decimals
  import opened Models
  import opened DynamoItems
  import opened DynamoTable

  // ---------------------------------------------------------------------------
  // The request of each query method

  /** GetValorFamiliaDataAsync(nomeFamilia, dataInicioVigencia). */
  function FamiliaDataRequest(nomeFamilia: string, data: DateOnly): QueryRequest
  {
    QueryRequest(GsiBuscaFamilia,
      [Eq("DataInicioVigencia", FormatDate(data)), Eq("NomeFamilia", nomeFamilia)], [])
  }

  /** GetValorFamiliaDataAsync(nomeFamilia), the overload without a date. */
  function FamiliaRequest(nomeFamilia: string): QueryRequest
  {
    QueryRequest(GsiBuscaFamilia, [Eq("NomeFamilia", nomeFamilia)], [])
  }

  /** GetValorSerieFamiliaAsync(nomeSerie, nomeFamilia, dataInicioVigencia): the
      date is a filter applied after the page is read. */
  function SerieFamiliaDataRequest(nomeSerie: string, nomeFamilia: string, data: DateOnly): QueryRequest
  {
    QueryRequest(BuscarFamilia,
      [Eq("NomeFamilia", nomeFamilia), Eq("NomeSerie", nomeSerie)],
      [Eq("DataInicioVigencia", FormatDate(data))])
  }

  /** GetValorSerieFamiliaAsync(nomeSerie, nomeFamilia). */
  function SerieFamiliaRequest(nomeSerie: string, nomeFamilia: string): QueryRequest
  {
    QueryRequest(BuscarFamilia, [Eq("NomeFamilia", nomeFamilia), Eq("NomeSerie", nomeSerie)], [])
  }

  /** GetValorSerieAtributoDataAsync(nomeSerie, nomeAtributo, dataInicioVigencia). */
  function SerieAtributoDataRequest(nomeSerie: string, nomeAtributo: string, data: DateOnly): QueryRequest
  {
    QueryRequest(BuscarAtributo,
      [Eq("NomeSerie", nomeSerie), Eq("NomeAtributo", nomeAtributo)],
      [Eq("DataInicioVigencia", FormatDate(data))])
  }

  /** GetValorSerieAtributoAsync(nomeSerie, nomeAtributo). */
  function SerieAtributoRequest(nomeSerie: string, nomeAtributo: string): QueryRequest
  {
    QueryRequest(BuscarAtributo, [Eq("NomeSerie", nomeSerie), Eq("NomeAtributo", nomeAtributo)], [])
  }

  /** GetItemSerieAtributoAsync(nomeSerie, nomeAtributoDataInicioVigencia): the
      base table's own key. */
  function ItemSerieAtributoRequest(nomeSerie: string, sortKey: string): QueryRequest
  {
    QueryRequest(BaseTable, [Eq("NomeSerie", nomeSerie), Eq("NomeAtributoDataInicioVigencia", sortKey)], [])
  }

  /** GetValorSerieDataAsync(nomeSerie, dataInicioVigencia). */
  function SerieDataRequest(nomeSerie: string, data: DateOnly): QueryRequest
  {
    QueryRequest(BuscarDataInicioVigencia,
      [Eq("DataInicioVigencia", FormatDate(data)), Eq("NomeSerie", nomeSerie)], [])
  }

  /** GetValorSerieDataAsync(nomeSerie), the overload without a date. */
  function SerieRequest(nomeSerie: string): QueryRequest
  {
    QueryRequest(BuscarDataInicioVigencia, [Eq("NomeSerie", nomeSerie)], [])
  }

  // ---------------------------------------------------------------------------
  // Running a query

  /** An item a query keeps: both its key condition and its filter hold. */
  predicate Selects(q: QueryRequest, item: Item)
  {
    Holds(item, q.keyCondition) && Holds(item, q.filter)
  }

  /** The query's answer: the conversions of the items it keeps. */
  function RunQuery(items: seq<Item>, q: QueryRequest, pageItems: nat): Result<seq<ValorDynamoDB>, ConversionError>
  {
    ConvertAll(QueryItems(items, q, pageItems))
  }

  /** Every value a query answers with was read from a stored item the query
      selects. */
  lemma QueryResultsFromSelected(items: seq<Item>, q: QueryRequest, pageItems: nat, i: nat)
    requires RunQuery(items, q, pageItems).Ok? && i < |RunQuery(items, q, pageItems).value|
    ensures exists item :: (item in items && Selects(q, item)
                            && ConvertFromItemInvariant(item) == Ok(RunQuery(items, q, pageItems).value[i]))
  {
    var found := QueryItems(items, q, pageItems);
    QueryItemsProps(items, q, pageItems);
    MapResultProps(found, ConvertFromItemInvariant);
    assert found[i] in found;
  }

  // ---------------------------------------------------------------------------
  // What each query selects

  /** A request's one or two key equalities and at most one filter equality, unpacked. */
  lemma SelectsShort(q: QueryRequest, item: Item)
    requires 1 <= |q.keyCondition| <= 2 && |q.filter| <= 1
    ensures Selects(q, item) <==>
      HoldsEq(item, q.keyCondition[0]) && HoldsEq(item, q.keyCondition[|q.keyCondition| - 1])
      && (|q.filter| == 1 ==> HoldsEq(item, q.filter[0]))
  {
    var k := q.keyCondition;
    HoldsShort(item, k[0], k[|k| - 1]);
    if |k| == 2 { assert k == [k[0], k[1]]; } else { assert k == [k[0]]; }
    if |q.filter| == 1 {
      HoldsShort(item, q.filter[0], q.filter[0]);
      assert q.filter == [q.filter[0]];
    } else {
      assert q.filter == [];
    }
  }

  // Each query below selects a written value exactly when the value's own
  // fields equal the arguments (the Stored lemma), and every value it reads
  // back has those fields (the Read lemma).

  /** GsiBuscaFamilia by family and start date. */
  lemma FamiliaDataSelectsStored(nomeFamilia: string, data: DateOnly, v: ValorDynamoDB)
    ensures Selects(FamiliaDataRequest(nomeFamilia, data), ConvertToItem(v)) <==> v.nomeFamilia == nomeFamilia && v.dataInicioVigencia == data
  {
    SelectsShort(FamiliaDataRequest(nomeFamilia, data), ConvertToItem(v));
    StoredQueryAttributes(v);
    if FormatDate(v.dataInicioVigencia) == FormatDate(data) {
      FormatDateInjective(v.dataInicioVigencia, data);
    }
  }

  lemma FamiliaDataSelectsRead(nomeFamilia: string, data: DateOnly, item: Item, v: ValorDynamoDB)
    requires Selects(FamiliaDataRequest(nomeFamilia, data), item) && ConvertFromItemInvariant(item) == Ok(v)
    ensures v.nomeFamilia == nomeFamilia && v.dataInicioVigencia == data
  {
    SelectsShort(FamiliaDataRequest(nomeFamilia, data), item);
    ConvertedFields(item, InvariantCulture, v);
    ParseFormatDate(data);
  }

  /** GsiBuscaFamilia by family alone. */
  lemma FamiliaSelectsStored(nomeFamilia: string, v: ValorDynamoDB)
    ensures Selects(FamiliaRequest(nomeFamilia), ConvertToItem(v)) <==> v.nomeFamilia == nomeFamilia
  {
    SelectsShort(FamiliaRequest(nomeFamilia), ConvertToItem(v));
    StoredQueryAttributes(v);
  }

  lemma FamiliaSelectsRead(nomeFamilia: string, item: Item, v: ValorDynamoDB)
    requires Selects(FamiliaRequest(nomeFamilia), item) && ConvertFromItemInvariant(item) == Ok(v)
    ensures v.nomeFamilia == nomeFamilia
  {
    SelectsShort(FamiliaRequest(nomeFamilia), item);
    ConvertedFields(item, InvariantCulture, v);
  }

  /** BuscarFamilia by family and series, filtered by start date. */
  lemma SerieFamiliaDataSelectsStored(nomeSerie: string, nomeFamilia: string, data: DateOnly, v: ValorDynamoDB)
    ensures Selects(SerieFamiliaDataRequest(nomeSerie, nomeFamilia, data), ConvertToItem(v)) <==> v.nomeFamilia == nomeFamilia && v.nomeSerie == nomeSerie && v.dataInicioVigencia == data
  {
    SelectsShort(SerieFamiliaDataRequest(nomeSerie, nomeFamilia, data), ConvertToItem(v));
    StoredQueryAttributes(v);
    if FormatDate(v.dataInicioVigencia) == FormatDate(data) {
      FormatDateInjective(v.dataInicioVigencia, data);
    }
  }

  lemma SerieFamiliaDataSelectsRead(nomeSerie: string, nomeFamilia: string, data: DateOnly, item: Item, v: ValorDynamoDB)
    requires Selects(SerieFamiliaDataRequest(nomeSerie, nomeFamilia, data), item) && ConvertFromItemInvariant(item) == Ok(v)
    ensures v.nomeFamilia == nomeFamilia && v.nomeSerie == nomeSerie && v.dataInicioVigencia == data
  {
    SelectsShort(SerieFamiliaDataRequest(nomeSerie, nomeFamilia, data), item);
    ConvertedFields(item, InvariantCulture, v);
    ParseFormatDate(data);
  }

  /** BuscarFamilia by family and series. */
  lemma SerieFamiliaSelectsStored(nomeSerie: string, nomeFamilia: string, v: ValorDynamoDB)
    ensures Selects(SerieFamiliaRequest(nomeSerie, nomeFamilia), ConvertToItem(v)) <==> v.nomeFamilia == nomeFamilia && v.nomeSerie == nomeSerie
  {
    SelectsShort(SerieFamiliaRequest(nomeSerie, nomeFamilia), ConvertToItem(v));
    StoredQueryAttributes(v);
  }

  lemma SerieFamiliaSelectsRead(nomeSerie: string, nomeFamilia: string, item: Item, v: ValorDynamoDB)
    requires Selects(SerieFamiliaRequest(nomeSerie, nomeFamilia), item) && ConvertFromItemInvariant(item) == Ok(v)
    ensures v.nomeFamilia == nomeFamilia && v.nomeSerie == nomeSerie
  {
    SelectsShort(SerieFamiliaRequest(nomeSerie, nomeFamilia), item);
    ConvertedFields(item, InvariantCulture, v);
  }

  /** BuscarAtributo by series and attribute, filtered by start date. */
  lemma SerieAtributoDataSelectsStored(nomeSerie: string, nomeAtributo: string, data: DateOnly, v: ValorDynamoDB)
    ensures Selects(SerieAtributoDataRequest(nomeSerie, nomeAtributo, data), ConvertToItem(v)) <==> v.nomeSerie == nomeSerie && v.nomeAtributo == nomeAtributo && v.dataInicioVigencia == data
  {
    SelectsShort(SerieAtributoDataRequest(nomeSerie, nomeAtributo, data), ConvertToItem(v));
    StoredQueryAttributes(v);
    if FormatDate(v.dataInicioVigencia) == FormatDate(data) {
      FormatDateInjective(v.dataInicioVigencia, data);
    }
  }

  lemma SerieAtributoDataSelectsRead(nomeSerie: string, nomeAtributo: string, data: DateOnly, item: Item, v: ValorDynamoDB)
    requires Selects(SerieAtributoDataRequest(nomeSerie, nomeAtributo, data), item) && ConvertFromItemInvariant(item) == Ok(v)
    ensures v.nomeSerie == nomeSerie && v.nomeAtributo == nomeAtributo && v.dataInicioVigencia == data
  {
    SelectsShort(SerieAtributoDataRequest(nomeSerie, nomeAtributo, data), item);
    ConvertedFields(item, InvariantCulture, v);
    ParseFormatDate(data);
  }

  /** BuscarAtributo by series and attribute. */
  lemma SerieAtributoSelectsStored(nomeSerie: string, nomeAtributo: string, v: ValorDynamoDB)
    ensures Selects(SerieAtributoRequest(nomeSerie, nomeAtributo), ConvertToItem(v)) <==> v.nomeSerie == nomeSerie && v.nomeAtributo == nomeAtributo
  {
    SelectsShort(SerieAtributoRequest(nomeSerie, nomeAtributo), ConvertToItem(v));
    StoredQueryAttributes(v);
  }

  lemma SerieAtributoSelectsRead(nomeSerie: string, nomeAtributo: string, item: Item, v: ValorDynamoDB)
    requires Selects(SerieAtributoRequest(nomeSerie, nomeAtributo), item) && ConvertFromItemInvariant(item) == Ok(v)
    ensures v.nomeSerie == nomeSerie && v.nomeAtributo == nomeAtributo
  {
    SelectsShort(SerieAtributoRequest(nomeSerie, nomeAtributo), item);
    ConvertedFields(item, InvariantCulture, v);
  }

  /** BuscarDataInicioVigencia by start date and series. */
  lemma SerieDataSelectsStored(nomeSerie: string, data: DateOnly, v: ValorDynamoDB)
    ensures Selects(SerieDataRequest(nomeSerie, data), ConvertToItem(v)) <==> v.nomeSerie == nomeSerie && v.dataInicioVigencia == data
  {
    SelectsShort(SerieDataRequest(nomeSerie, data), ConvertToItem(v));
    StoredQueryAttributes(v);
    if FormatDate(v.dataInicioVigencia) == FormatDate(data) {
      FormatDateInjective(v.dataInicioVigencia, data);
    }
  }

  lemma SerieDataSelectsRead(nomeSerie: string, data: DateOnly, item: Item, v: ValorDynamoDB)
    requires Selects(SerieDataRequest(nomeSerie, data), item) && ConvertFromItemInvariant(item) == Ok(v)
    ensures v.nomeSerie == nomeSerie && v.dataInicioVigencia == data
  {
    SelectsShort(SerieDataRequest(nomeSerie, data), item);
    ConvertedFields(item, InvariantCulture, v);
    ParseFormatDate(data);
  }

  /** BuscarDataInicioVigencia by series alone. */
  lemma SerieSelectsStored(nomeSerie: string, v: ValorDynamoDB)
    ensures Selects(SerieRequest(nomeSerie), ConvertToItem(v)) <==> v.nomeSerie == nomeSerie
  {
    SelectsShort(SerieRequest(nomeSerie), ConvertToItem(v));
    StoredQueryAttributes(v);
  }

  lemma SerieSelectsRead(nomeSerie: string, item: Item, v: ValorDynamoDB)
    requires Selects(SerieRequest(nomeSerie), item) && ConvertFromItemInvariant(item) == Ok(v)
    ensures v.nomeSerie == nomeSerie
  {
    SelectsShort(SerieRequest(nomeSerie), item);
    ConvertedFields(item, InvariantCulture, v);
  }

  /** The base table's key: on a written value, the series and the composite
      sort key, which fixes attribute and start date together. The sort key is
      not read back, so of a value read only its series is known. */
  lemma ItemSerieAtributoSelectsStored(nomeSerie: string, nomeAtributo: string, data: DateOnly, v: ValorDynamoDB)
    ensures Selects(ItemSerieAtributoRequest(nomeSerie, SortKey(nomeAtributo, data)), ConvertToItem(v)) <==>
      v.nomeSerie == nomeSerie && v.nomeAtributo == nomeAtributo && v.dataInicioVigencia == data
  {
    SelectsShort(ItemSerieAtributoRequest(nomeSerie, SortKey(nomeAtributo, data)), ConvertToItem(v));
    StoredQueryAttributes(v);
    SortKeyInjective(v.nomeAtributo, v.dataInicioVigencia, nomeAtributo, data);
  }

  lemma ItemSerieAtributoSelectsRead(nomeSerie: string, sortKey: string, item: Item, v: ValorDynamoDB)
    requires Selects(ItemSerieAtributoRequest(nomeSerie, sortKey), item) && ConvertFromItemInvariant(item) == Ok(v)
    ensures v.nomeSerie == nomeSerie
  {
    SelectsShort(ItemSerieAtributoRequest(nomeSerie, sortKey), item);
    ConvertedFields(item, InvariantCulture, v);
  }

  /** Everything GetValorFamiliaDataAsync(nomeFamilia, data) answers has that
      family and start date; when the family's items for the date fit on one
      page, every stored value with both is answered. */
  lemma FamiliaDataResults(items: seq<Item>, pageItems: nat, nomeFamilia: string, data: DateOnly)
    requires RunQuery(items, FamiliaDataRequest(nomeFamilia, data), pageItems).Ok?
    ensures forall v :: v in RunQuery(items, FamiliaDataRequest(nomeFamilia, data), pageItems).value ==>
      v.nomeFamilia == nomeFamilia && v.dataInicioVigencia == data
    ensures |Select(items, FamiliaDataRequest(nomeFamilia, data).keyCondition)| <= pageItems ==>
      forall v :: ConvertToItem(v) in items && v.nomeFamilia == nomeFamilia && v.dataInicioVigencia == data ==>
        ConvertToItem(v) in QueryItems(items, FamiliaDataRequest(nomeFamilia, data), pageItems)
  {
    var q := FamiliaDataRequest(nomeFamilia, data);
    var vs := RunQuery(items, q, pageItems).value;
    forall v | v in vs ensures v.nomeFamilia == nomeFamilia && v.dataInicioVigencia == data {
      var i :| 0 <= i < |vs| && vs[i] == v;
      QueryResultsFromSelected(items, q, pageItems, i);
      var item :| item in items && Selects(q, item) && ConvertFromItemInvariant(item) == Ok(v);
      FamiliaDataSelectsRead(nomeFamilia, data, item, v);
    }
    QueryItemsProps(items, q, pageItems);
    forall v | ConvertToItem(v) in items && v.nomeFamilia == nomeFamilia && v.dataInicioVigencia == data
      ensures Selects(q, ConvertToItem(v))
    {
      FamiliaDataSelectsStored(nomeFamilia, data, v);
    }
  }
}
