/** The item codec of DynamoDBRepository: ConvertToDynamoDBItem, which writes a
    ValorDynamoDB as a map of string and number attributes with the composite
    sort key NomeAtributo#yyyyMMdd, and ConvertFromDynamoDBItem, which reads it
    back field by field. */
module DynamoItems {
  import opened Wrappers
  import opened Dates
  import opened Decimals
  import opened Models

  /** An AttributeValue as the repository uses it: a string (S) or a number in
      text form (N); either may be null. */
  datatype AttributeValue = AttributeValue(s: Option<string>, n: Option<string>)

  type Item = map<string, AttributeValue>

  function Str(s: string): AttributeValue { AttributeValue(Some(s), None) }

  /** The sort key NomeAtributoDataInicioVigencia: the attribute, '#', and the
      start date as yyyyMMdd. */
  function SortKey(nomeAtributo: string, data: DateOnly): string
  {
    nomeAtributo + "#" + FormatDate(data)
  }

  /** The primary key of the table: partition key NomeSerie, sort key
      NomeAtributoDataInicioVigencia. */
  datatype Key = Key(nomeSerie: AttributeValue, sortKey: AttributeValue)

  /** The key a value is stored under. */
  function ValorKey(v: ValorDynamoDB): Key
  {
    Key(Str(v.nomeSerie), Str(SortKey(v.nomeAtributo, v.dataInicioVigencia)))
  }

  /** Why reading an item fails: a missing attribute (KeyNotFoundException), a
      null string or number, or text the parser refuses (FormatException). */
  datatype ConversionError =
    | KeyNotFound(attribute: string)
    | NullValue(attribute: string)
    | BadFormat(attribute: string, text: string)

  /** item[attribute]: the dictionary indexer throws when the attribute is absent. */
  function Attribute(item: Item, attribute: string): (r: Result<AttributeValue, ConversionError>)
    ensures r.Ok? <==> attribute in item
    ensures r.Ok? ==> r.value == item[attribute]
  {
    if attribute in item then Ok(item[attribute]) else Err(KeyNotFound(attribute))
  }

  /** The key of a stored item, read the way the delete request reads it. */
  function KeyOf(item: Item): Result<Key, ConversionError>
  {
    var serie :- Attribute(item, "NomeSerie");
    var sortKey :- Attribute(item, "NomeAtributoDataInicioVigencia");
    Ok(Key(serie, sortKey))
  }

  /** The nine attributes every written item carries. */
  const ItemAttributes: set<string> := {"NomeFamilia", "NomeSerie", "NomeAtributoDataInicioVigencia",
    "NomeAtributo", "NomeArquivo", "ValorAtivo", "DataInicioVigencia", "DataFimVigencia", "DataAtualizacao"}

  /** ConvertToDynamoDBItem: the amount in invariant-culture text, dates as
      yyyyMMdd, the update time to the second. */
  function ConvertToItem(v: ValorDynamoDB): (item: Item)
    ensures item.Keys == ItemAttributes
    ensures KeyOf(item) == Ok(ValorKey(v))
  {
    map[
      "NomeFamilia" := Str(v.nomeFamilia),
      "NomeSerie" := Str(v.nomeSerie),
      "NomeAtributoDataInicioVigencia" := Str(SortKey(v.nomeAtributo, v.dataInicioVigencia)),
      "NomeAtributo" := Str(v.nomeAtributo),
      "NomeArquivo" := AttributeValue(v.nomeArquivo, None),
      "ValorAtivo" := AttributeValue(None, Some(FormatInvariant(v.valorAtivo))),
      "DataInicioVigencia" := Str(FormatDate(v.dataInicioVigencia)),
      "DataFimVigencia" := Str(FormatDate(v.dataFimVigencia)),
      "DataAtualizacao" := Str(FormatTimestamp(v.dataAtualizacao))
    ]
  }

  function StringAttribute(item: Item, attribute: string): Result<string, ConversionError>
  {
    var a :- Attribute(item, attribute);
    if a.s.Some? then Ok(a.s.value) else Err(NullValue(attribute))
  }

  /** DateOnly.ParseExact(item[attribute].S, "yyyyMMdd", InvariantCulture). */
  function DateAttribute(item: Item, attribute: string): Result<DateOnly, ConversionError>
  {
    var text :- StringAttribute(item, attribute);
    match ParseDate(text)
    case Ok(d) => Ok(d)
    case Err(_) => Err(BadFormat(attribute, text))
  }

  /** decimal.Parse(item[attribute].N), with the separators of the given culture. */
  function AmountAttribute(item: Item, attribute: string, culture: Culture): Result<Decimal, ConversionError>
  {
    var a :- Attribute(item, attribute);
    if a.n.None? then Err(NullValue(attribute))
    else match ParseDecimal(a.n.value, culture)
      case Ok(d) => Ok(d)
      case Err(_) => Err(BadFormat(attribute, a.n.value))
  }

  /** DateTime.Parse(item[attribute].S) on the layout the writer uses. */
  function TimestampAttribute(item: Item, attribute: string): Result<Instant, ConversionError>
  {
    var text :- StringAttribute(item, attribute);
    match ParseTimestamp(text)
    case Ok(t) => if ValidDateTime(t) then Ok(t) else Err(BadFormat(attribute, text))
    case Err(_) => Err(BadFormat(attribute, text))
  }

  /** ConvertFromDynamoDBItem under a given current culture: the object
      initializer reads the attributes in declaration order, so the first
      failing attribute decides the error. The sort key is not read. */
  function ConvertFromItem(item: Item, culture: Culture): Result<ValorDynamoDB, ConversionError>
  {
    var nomeFamilia :- StringAttribute(item, "NomeFamilia");
    var nomeSerie :- StringAttribute(item, "NomeSerie");
    var nomeAtributo :- StringAttribute(item, "NomeAtributo");
    var arquivo :- Attribute(item, "NomeArquivo");
    var valorAtivo :- AmountAttribute(item, "ValorAtivo", culture);
    var inicio :- DateAttribute(item, "DataInicioVigencia");
    var fim :- DateAttribute(item, "DataFimVigencia");
    var atualizacao :- TimestampAttribute(item, "DataAtualizacao");
    Ok(ValorDynamoDB(nomeFamilia, nomeSerie, nomeAtributo, arquivo.s, valorAtivo, inicio, fim, atualizacao))
  }

  /** The conversion the rest of the model reads with: the amount is parsed with
      the invariant culture it was written with. */
  function ConvertFromItemInvariant(item: Item): Result<ValorDynamoDB, ConversionError>
  {
    ConvertFromItem(item, InvariantCulture)
  }

  // ---------------------------------------------------------------------------
  // The sort key

  /** The attribute and the date are recoverable from the sort key: drop the
      last nine characters for the attribute, parse the last eight for the date. */
  lemma SortKeyParts(nomeAtributo: string, data: DateOnly)
    ensures var sk := SortKey(nomeAtributo, data);
      |sk| >= 9 && sk[..|sk| - 9] == nomeAtributo && sk[|sk| - 9] == '#'
      && ParseDate(sk[|sk| - 8..]) == Ok(data)
  {
    var sk := SortKey(nomeAtributo, data);
    FormatDateShape(data);
    ParseFormatDate(data);
    assert sk[..|sk| - 9] == nomeAtributo;
    assert sk[|sk| - 8..] == FormatDate(data);
  }

  /** Distinct (attribute, date) pairs never share a sort key. */
  lemma SortKeyInjective(a1: string, d1: DateOnly, a2: string, d2: DateOnly)
    ensures SortKey(a1, d1) == SortKey(a2, d2) <==> a1 == a2 && d1 == d2
  {
    if SortKey(a1, d1) == SortKey(a2, d2) {
      SortKeyParts(a1, d1);
      SortKeyParts(a2, d2);
    }
  }

  /** Two values share a primary key exactly when they agree on series,
      attribute and start date: the key DistinctBy deduplicates on. */
  lemma ValorKeyIff(a: ValorDynamoDB, b: ValorDynamoDB)
    ensures ValorKey(a) == ValorKey(b) <==>
      a.nomeSerie == b.nomeSerie && a.nomeAtributo == b.nomeAtributo
      && a.dataInicioVigencia == b.dataInicioVigencia
  {
    SortKeyInjective(a.nomeAtributo, a.dataInicioVigencia, b.nomeAtributo, b.dataInicioVigencia);
  }

  // ---------------------------------------------------------------------------
  // Round trip

  /** Read back with a culture whose decimal separator is '.', a written value
      comes back whole except for the sub-second part of its update time. */
  lemma ConvertRoundTrip(v: ValorDynamoDB, culture: Culture)
    requires ValidCulture(culture) && culture.decimalSeparator == '.'
    ensures ConvertFromItem(ConvertToItem(v), culture) == Ok(v.(dataAtualizacao := v.dataAtualizacao.(ticks := 0)))
  {
    var item := ConvertToItem(v);
    ReadStoredNames(v);
    ReadStoredDates(v);
    ReadStoredTimestamp(v);
    ParseFormatInvariant(v.valorAtivo, culture);
    assert AmountAttribute(item, "ValorAtivo", culture) == Ok(v.valorAtivo);
  }

  /** The three names read back from a written item. */
  lemma ReadStoredNames(v: ValorDynamoDB)
    ensures var item := ConvertToItem(v);
      StringAttribute(item, "NomeFamilia") == Ok(v.nomeFamilia)
      && StringAttribute(item, "NomeSerie") == Ok(v.nomeSerie)
      && StringAttribute(item, "NomeAtributo") == Ok(v.nomeAtributo)
      && Attribute(item, "NomeArquivo") == Ok(AttributeValue(v.nomeArquivo, None))
      && Attribute(item, "ValorAtivo") == Ok(AttributeValue(None, Some(FormatInvariant(v.valorAtivo))))
  {
  }

  /** The attributes the queries compare, as the writer stores them. */
  lemma StoredQueryAttributes(v: ValorDynamoDB)
    ensures var item := ConvertToItem(v);
      "NomeFamilia" in item && item["NomeFamilia"] == Str(v.nomeFamilia)
      && "NomeSerie" in item && item["NomeSerie"] == Str(v.nomeSerie)
      && "NomeAtributo" in item && item["NomeAtributo"] == Str(v.nomeAtributo)
      && "DataInicioVigencia" in item && item["DataInicioVigencia"] == Str(FormatDate(v.dataInicioVigencia))
      && "DataFimVigencia" in item && item["DataFimVigencia"] == Str(FormatDate(v.dataFimVigencia))
      && "NomeAtributoDataInicioVigencia" in item
      && item["NomeAtributoDataInicioVigencia"] == Str(SortKey(v.nomeAtributo, v.dataInicioVigencia))
  {
  }

  /** Both validity dates read back from a written item. */
  lemma ReadStoredDates(v: ValorDynamoDB)
    ensures var item := ConvertToItem(v);
      DateAttribute(item, "DataInicioVigencia") == Ok(v.dataInicioVigencia)
      && DateAttribute(item, "DataFimVigencia") == Ok(v.dataFimVigencia)
  {
    ParseFormatDate(v.dataInicioVigencia);
    ParseFormatDate(v.dataFimVigencia);
  }

  /** The update time reads back to the whole second. */
  lemma ReadStoredTimestamp(v: ValorDynamoDB)
    ensures TimestampAttribute(ConvertToItem(v), "DataAtualizacao") == Ok(v.dataAtualizacao.(ticks := 0))
  {
    ParseFormatTimestamp(v.dataAtualizacao);
  }

  lemma ConvertRoundTripInvariant(v: ValorDynamoDB)
    ensures ConvertFromItemInvariant(ConvertToItem(v)) == Ok(v.(dataAtualizacao := v.dataAtualizacao.(ticks := 0)))
  {
    ConvertRoundTrip(v, InvariantCulture);
  }

  /** As written, the amount is parsed with the current culture: under pt-BR the
      stored text "12.5" is read as 125. */
  lemma CurrentCultureMisreadsAmount(v: ValorDynamoDB)
    requires v.valorAtivo == Decimal(125, 1)
    ensures ConvertFromItem(ConvertToItem(v), BrazilianCulture)
      == Ok(v.(valorAtivo := Decimal(125, 0), dataAtualizacao := v.dataAtualizacao.(ticks := 0)))
  {
    var item := ConvertToItem(v);
    ReadStoredNames(v);
    ReadStoredDates(v);
    ReadStoredTimestamp(v);
    BrazilianCultureMisreadsAmount();
    assert AmountAttribute(item, "ValorAtivo", BrazilianCulture) == Ok(Decimal(125, 0));
  }

  /** What a successful read says about the item it came from. */
  lemma ConvertedFields(item: Item, culture: Culture, v: ValorDynamoDB)
    requires ConvertFromItem(item, culture) == Ok(v)
    ensures "NomeFamilia" in item && item["NomeFamilia"].s == Some(v.nomeFamilia)
    ensures "NomeSerie" in item && item["NomeSerie"].s == Some(v.nomeSerie)
    ensures "NomeAtributo" in item && item["NomeAtributo"].s == Some(v.nomeAtributo)
    ensures "DataInicioVigencia" in item && item["DataInicioVigencia"].s.Some?
      && ParseDate(item["DataInicioVigencia"].s.value) == Ok(v.dataInicioVigencia)
    ensures "DataFimVigencia" in item && item["DataFimVigencia"].s.Some?
      && ParseDate(item["DataFimVigencia"].s.value) == Ok(v.dataFimVigencia)
  {
  }

  /** GetItem on an absent key answers with an empty item, whose conversion
      fails at the first attribute read. */
  lemma EmptyItemFails(culture: Culture)
    ensures ConvertFromItem(map[], culture) == Err(KeyNotFound("NomeFamilia"))
  {
  }
}
