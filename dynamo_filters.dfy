/** BuildFilterExpression and BuildExpressionAttributeValues of
    DynamoDBRepository: the optional predicates of GetValoresComFiltrosAsync
    turned into a FilterExpression and its placeholder values. */
module DynamoFilters {
  import opened Wrappers
  import opened Dates
  import opened Sequences
  import opened Models
  import opened DynamoItems
  import opened Decimals
  import opened Strings

  /** The optional arguments of GetValoresComFiltrosAsync. */
  datatype ScanFilter = ScanFilter(
    nomeFamilia: Option<string>,
    nomeSerie: Option<string>,
    nomeAtributo: Option<string>,
    nomeAtributoDataInicioVigencia: Option<string>,
    dataInicioVigencia: Option<DateOnly>,
    dataFimVigencia: Option<DateOnly>)

  const NoFilter := ScanFilter(None, None, None, None, None, None)

  /** One `Attribute = :placeholder` comparison: its text in the expression,
      the attribute it reads, its placeholder and the string bound to it. */
  datatype Condition = Condition(comparison: string, attribute: string, placeholder: string, value: string)

  /** The comparison texts the expression builder appends. */
  const FamiliaComparison := "NomeFamilia = :nomeFamilia"
  const AtributoDataComparison := "NomeAtributoDataInicioVigencia = :nomeAtributoDataInicioVigencia"
  const SerieComparison := "NomeSerie = :nomeSerie"
  const AtributoComparison := "NomeAtributo = :nomeAtributo"
  const DataInicioComparison := "DataInicioVigencia = :dataInicioVigencia"
  const DataFimComparison := "DataFimVigencia = :dataFimVigencia"

  function StringCondition(comparison: string, attribute: string, placeholder: string, arg: Option<string>): seq<Condition>
  {
    if IsNullOrWhiteSpace(arg) then [] else [Condition(comparison, attribute, placeholder, arg.value)]
  }

  function DateCondition(comparison: string, attribute: string, placeholder: string, arg: Option<DateOnly>): seq<Condition>
  {
    if arg.Some? then [Condition(comparison, attribute, placeholder, FormatDate(arg.value))] else []
  }

  function FamiliaCondition(f: ScanFilter): seq<Condition>
  {
    StringCondition(FamiliaComparison, "NomeFamilia", ":nomeFamilia", f.nomeFamilia)
  }

  function AtributoDataCondition(f: ScanFilter): seq<Condition>
  {
    StringCondition(AtributoDataComparison,
      "NomeAtributoDataInicioVigencia", ":nomeAtributoDataInicioVigencia", f.nomeAtributoDataInicioVigencia)
  }

  function SerieCondition(f: ScanFilter): seq<Condition>
  {
    StringCondition(SerieComparison, "NomeSerie", ":nomeSerie", f.nomeSerie)
  }

  function AtributoCondition(f: ScanFilter): seq<Condition>
  {
    StringCondition(AtributoComparison, "NomeAtributo", ":nomeAtributo", f.nomeAtributo)
  }

  function DataInicioCondition(f: ScanFilter): seq<Condition>
  {
    DateCondition(DataInicioComparison, "DataInicioVigencia", ":dataInicioVigencia", f.dataInicioVigencia)
  }

  function DataFimCondition(f: ScanFilter): seq<Condition>
  {
    DateCondition(DataFimComparison, "DataFimVigencia", ":dataFimVigencia", f.dataFimVigencia)
  }

  /** The comparisons a filter contributes, in the order both builders test
      their arguments: Familia, AtributoData, Serie, Atributo, DataInicio, DataFim. */
  function Conditions(f: ScanFilter): seq<Condition>
  {
    FamiliaCondition(f) + AtributoDataCondition(f) + SerieCondition(f) + AtributoCondition(f)
    + DataInicioCondition(f) + DataFimCondition(f)
  }

  function Texts(cs: seq<Condition>): seq<string>
  {
    if |cs| == 0 then [] else Texts(cs[..|cs| - 1]) + [cs[|cs| - 1].comparison]
  }

  /** The placeholder map: each condition's placeholder bound to its string. */
  function Values(cs: seq<Condition>): map<string, AttributeValue>
  {
    if |cs| == 0 then map[]
    else Values(cs[..|cs| - 1])[cs[|cs| - 1].placeholder := Str(cs[|cs| - 1].value)]
  }

  function Placeholders(cs: seq<Condition>): set<string>
  {
    set i | 0 <= i < |cs| :: cs[i].placeholder
  }

  /** How the table evaluates a FilterExpression on one item: every comparison holds. */
  predicate Matches(item: Item, cs: seq<Condition>)
  {
    forall i :: 0 <= i < |cs| ==> cs[i].attribute in item && item[cs[i].attribute] == Str(cs[i].value)
  }

  /** A comparison reads its own attribute and names its own placeholder. */
  predicate ComparesOwnPlaceholder(c: Condition)
  {
    c.comparison == c.attribute + " = " + c.placeholder
  }

  /** Each comparison the builders emit compares its own attribute with its
      own placeholder, so the placeholders the expression names are the
      placeholders of the conditions, which are the keys of the value map. */
  lemma ConditionsWellFormed(f: ScanFilter)
    ensures forall c :: c in Conditions(f) ==> ComparesOwnPlaceholder(c)
  {
    var a, b, c := FamiliaCondition(f), AtributoDataCondition(f), SerieCondition(f);
    var d, e, g := AtributoCondition(f), DataInicioCondition(f), DataFimCondition(f);
    FamiliaConditionWellFormed(f);
    AtributoDataConditionWellFormed(f);
    SerieConditionWellFormed(f);
    AtributoConditionWellFormed(f);
    DataInicioConditionWellFormed(f);
    DataFimConditionWellFormed(f);
    assert Conditions(f) == a + b + c + d + e + g;
  }

  lemma FamiliaConditionWellFormed(f: ScanFilter)
    ensures forall c :: c in FamiliaCondition(f) ==> ComparesOwnPlaceholder(c)
  {
    assert FamiliaComparison == "NomeFamilia" + " = " + ":nomeFamilia";
  }

  lemma AtributoDataConditionWellFormed(f: ScanFilter)
    ensures forall c :: c in AtributoDataCondition(f) ==> ComparesOwnPlaceholder(c)
  {
    assert AtributoDataComparison == "NomeAtributoDataInicioVigencia" + " = " + ":nomeAtributoDataInicioVigencia";
  }

  lemma SerieConditionWellFormed(f: ScanFilter)
    ensures forall c :: c in SerieCondition(f) ==> ComparesOwnPlaceholder(c)
  {
    assert SerieComparison == "NomeSerie" + " = " + ":nomeSerie";
  }

  lemma AtributoConditionWellFormed(f: ScanFilter)
    ensures forall c :: c in AtributoCondition(f) ==> ComparesOwnPlaceholder(c)
  {
    assert AtributoComparison == "NomeAtributo" + " = " + ":nomeAtributo";
  }

  lemma DataInicioConditionWellFormed(f: ScanFilter)
    ensures forall c :: c in DataInicioCondition(f) ==> ComparesOwnPlaceholder(c)
  {
    assert DataInicioComparison == "DataInicioVigencia" + " = " + ":dataInicioVigencia";
  }

  lemma DataFimConditionWellFormed(f: ScanFilter)
    ensures forall c :: c in DataFimCondition(f) ==> ComparesOwnPlaceholder(c)
  {
    assert DataFimComparison == "DataFimVigencia" + " = " + ":dataFimVigencia";
  }

  lemma TextsSnoc(cs: seq<Condition>, d: seq<Condition>)
    requires |d| <= 1
    ensures Texts(cs + d) == Texts(cs) + (if |d| == 1 then [d[0].comparison] else [])
  {
    if |d| == 1 { assert (cs + d)[..|cs|] == cs; } else { assert cs + d == cs; }
  }

  lemma ValuesSnoc(cs: seq<Condition>, d: seq<Condition>)
    requires |d| <= 1
    ensures Values(cs + d) == if |d| == 1 then Values(cs)[d[0].placeholder := Str(d[0].value)] else Values(cs)
  {
    if |d| == 1 { assert (cs + d)[..|cs|] == cs; } else { assert cs + d == cs; }
  }

  /** The comparison texts BuildFilterExpression collects, one guarded part per argument. */
  function FilterParts(f: ScanFilter): seq<string>
  {
    Part(!IsNullOrWhiteSpace(f.nomeFamilia), FamiliaComparison)
    + Part(!IsNullOrWhiteSpace(f.nomeAtributoDataInicioVigencia), AtributoDataComparison)
    + Part(!IsNullOrWhiteSpace(f.nomeSerie), SerieComparison)
    + Part(!IsNullOrWhiteSpace(f.nomeAtributo), AtributoComparison)
    + Part(f.dataInicioVigencia.Some?, DataInicioComparison)
    + Part(f.dataFimVigencia.Some?, DataFimComparison)
  }

  function Part(present: bool, text: string): seq<string>
  {
    if present then [text] else []
  }

  /** BuildFilterExpression: one comparison per given predicate, joined by " AND ",
      or "" when none is given. */
  method BuildFilterExpression(f: ScanFilter) returns (expression: string)
    ensures expression == Join(" AND ", FilterParts(f))
    ensures expression == "" <==> FilterParts(f) == []
  {
    var conditions: seq<string> := [];
    ghost var parts := Part(!IsNullOrWhiteSpace(f.nomeFamilia), FamiliaComparison);
    if !IsNullOrWhiteSpace(f.nomeFamilia) { conditions := conditions + [FamiliaComparison]; }
    assert conditions == parts;
    parts := parts + Part(!IsNullOrWhiteSpace(f.nomeAtributoDataInicioVigencia), AtributoDataComparison);
    if !IsNullOrWhiteSpace(f.nomeAtributoDataInicioVigencia) {
      conditions := conditions + [AtributoDataComparison];
    }
    assert conditions == parts;
    parts := parts + Part(!IsNullOrWhiteSpace(f.nomeSerie), SerieComparison);
    if !IsNullOrWhiteSpace(f.nomeSerie) { conditions := conditions + [SerieComparison]; }
    assert conditions == parts;
    parts := parts + Part(!IsNullOrWhiteSpace(f.nomeAtributo), AtributoComparison);
    if !IsNullOrWhiteSpace(f.nomeAtributo) { conditions := conditions + [AtributoComparison]; }
    assert conditions == parts;
    parts := parts + Part(f.dataInicioVigencia.Some?, DataInicioComparison);
    if f.dataInicioVigencia.Some? { conditions := conditions + [DataInicioComparison]; }
    assert conditions == parts;
    parts := parts + Part(f.dataFimVigencia.Some?, DataFimComparison);
    if f.dataFimVigencia.Some? { conditions := conditions + [DataFimComparison]; }
    assert conditions == parts == FilterParts(f);
    FilterPartsJoin(f);
    expression := if |conditions| > 0 then Join(" AND ", conditions) else "";
  }

  lemma FilterPartsJoin(f: ScanFilter)
    ensures Join(" AND ", FilterParts(f)) == "" <==> FilterParts(f) == []
  {
    FilterPartsNonEmpty(f);
    JoinEmptyIff(" AND ", FilterParts(f));
  }

  /** The collected texts are the comparisons of the filter's conditions, in order. */
  lemma FilterPartsAreConditionTexts(f: ScanFilter)
    ensures FilterParts(f) == Texts(Conditions(f))
  {
    var a := FamiliaCondition(f);
    var b := AtributoDataCondition(f);
    var c := SerieCondition(f);
    var d := AtributoCondition(f);
    var e := DataInicioCondition(f);
    var g := DataFimCondition(f);
    TextsAppend(a, b);
    TextsAppend(a + b, c);
    TextsAppend(a + b + c, d);
    TextsAppend(a + b + c + d, e);
    TextsAppend(a + b + c + d + e, g);
    assert Texts(a) == Part(!IsNullOrWhiteSpace(f.nomeFamilia), FamiliaComparison);
    assert Texts(b) == Part(!IsNullOrWhiteSpace(f.nomeAtributoDataInicioVigencia), AtributoDataComparison);
    assert Texts(c) == Part(!IsNullOrWhiteSpace(f.nomeSerie), SerieComparison);
    assert Texts(d) == Part(!IsNullOrWhiteSpace(f.nomeAtributo), AtributoComparison);
    assert Texts(e) == Part(f.dataInicioVigencia.Some?, DataInicioComparison);
    assert Texts(g) == Part(f.dataFimVigencia.Some?, DataFimComparison);
  }

  /** No collected text is empty. */
  lemma FilterPartsNonEmpty(f: ScanFilter)
    ensures forall i :: 0 <= i < |FilterParts(f)| ==> FilterParts(f)[i] != ""
  {
    var p := FilterParts(f);
    forall i | 0 <= i < |p| ensures p[i] != "" {
      assert p[i] in p;
    }
  }

  /** The filter expression is empty exactly when the filter has no condition. */
  lemma FilterExpressionEmptyIff(f: ScanFilter)
    ensures Join(" AND ", Texts(Conditions(f))) == "" <==> Conditions(f) == []
  {
    FilterPartsAreConditionTexts(f);
    FilterPartsNonEmpty(f);
    JoinEmptyIff(" AND ", FilterParts(f));
    TextsLength(Conditions(f));
  }

  lemma {:induction false} TextsAppend(a: seq<Condition>, b: seq<Condition>)
    ensures Texts(a + b) == Texts(a) + Texts(b)
    decreases |b|
  {
    if |b| > 0 {
      var b' := b[..|b| - 1];
      assert (a + b)[..|a + b| - 1] == a + b';
      TextsAppend(a, b');
    } else {
      assert a + b == a;
    }
  }

  lemma {:induction false} TextsLength(cs: seq<Condition>)
    ensures |Texts(cs)| == |cs|
    ensures forall i :: 0 <= i < |cs| ==> Texts(cs)[i] == cs[i].comparison
  {
    if |cs| > 0 { TextsLength(cs[..|cs| - 1]); }
  }

  /** BuildExpressionAttributeValues: the same guards fill the placeholder map. */
  method BuildExpressionAttributeValues(f: ScanFilter) returns (values: map<string, AttributeValue>)
    ensures values == Values(Conditions(f))
    ensures values.Keys == Placeholders(Conditions(f))
  {
    values := map[];
    if !IsNullOrWhiteSpace(f.nomeFamilia) { values := values[":nomeFamilia" := Str(f.nomeFamilia.value)]; }
    ValuesSnoc([], FamiliaCondition(f));
    ghost var cs := [] + FamiliaCondition(f);
    assert values == Values(cs);
    if !IsNullOrWhiteSpace(f.nomeAtributoDataInicioVigencia) {
      values := values[":nomeAtributoDataInicioVigencia" := Str(f.nomeAtributoDataInicioVigencia.value)];
    }
    ValuesSnoc(cs, AtributoDataCondition(f));
    cs := cs + AtributoDataCondition(f);
    assert values == Values(cs);
    if !IsNullOrWhiteSpace(f.nomeSerie) { values := values[":nomeSerie" := Str(f.nomeSerie.value)]; }
    ValuesSnoc(cs, SerieCondition(f));
    cs := cs + SerieCondition(f);
    assert values == Values(cs);
    if !IsNullOrWhiteSpace(f.nomeAtributo) { values := values[":nomeAtributo" := Str(f.nomeAtributo.value)]; }
    ValuesSnoc(cs, AtributoCondition(f));
    cs := cs + AtributoCondition(f);
    assert values == Values(cs);
    if f.dataInicioVigencia.Some? {
      values := values[":dataInicioVigencia" := Str(FormatDate(f.dataInicioVigencia.value))];
    }
    ValuesSnoc(cs, DataInicioCondition(f));
    cs := cs + DataInicioCondition(f);
    assert values == Values(cs);
    if f.dataFimVigencia.Some? {
      values := values[":dataFimVigencia" := Str(FormatDate(f.dataFimVigencia.value))];
    }
    ValuesSnoc(cs, DataFimCondition(f));
    cs := cs + DataFimCondition(f);
    assert values == Values(cs);
    assert [] + FamiliaCondition(f) == FamiliaCondition(f);
    assert cs == Conditions(f);
    ValuesKeys(cs);
  }

  lemma {:induction false} ValuesKeys(cs: seq<Condition>)
    ensures Values(cs).Keys == Placeholders(cs)
  {
    if |cs| > 0 {
      var p := cs[..|cs| - 1];
      ValuesKeys(p);
      assert Placeholders(cs) == Placeholders(p) + {cs[|cs| - 1].placeholder} by {
        forall x | x in Placeholders(cs) ensures x in Placeholders(p) + {cs[|cs| - 1].placeholder} {
          var i :| 0 <= i < |cs| && cs[i].placeholder == x;
          if i < |p| { assert p[i] == cs[i]; }
        }
        forall x | x in Placeholders(p) ensures x in Placeholders(cs) {
          var i :| 0 <= i < |p| && p[i].placeholder == x;
          assert cs[i] == p[i];
        }
      }
    }
  }

  // ---------------------------------------------------------------------------
  // What the scan keeps

  /** Field by field: each given argument fixes one attribute of the item to
      its string (a date to its yyyyMMdd text); blank names and absent dates
      fix nothing. */
  predicate Satisfies(item: Item, f: ScanFilter)
  {
    (!IsNullOrWhiteSpace(f.nomeFamilia) ==>
      "NomeFamilia" in item && item["NomeFamilia"] == Str(f.nomeFamilia.value))
    && (!IsNullOrWhiteSpace(f.nomeAtributoDataInicioVigencia) ==>
      "NomeAtributoDataInicioVigencia" in item
      && item["NomeAtributoDataInicioVigencia"] == Str(f.nomeAtributoDataInicioVigencia.value))
    && (!IsNullOrWhiteSpace(f.nomeSerie) ==>
      "NomeSerie" in item && item["NomeSerie"] == Str(f.nomeSerie.value))
    && (!IsNullOrWhiteSpace(f.nomeAtributo) ==>
      "NomeAtributo" in item && item["NomeAtributo"] == Str(f.nomeAtributo.value))
    && (f.dataInicioVigencia.Some? ==>
      "DataInicioVigencia" in item && item["DataInicioVigencia"] == Str(FormatDate(f.dataInicioVigencia.value)))
    && (f.dataFimVigencia.Some? ==>
      "DataFimVigencia" in item && item["DataFimVigencia"] == Str(FormatDate(f.dataFimVigencia.value)))
  }

  lemma MatchesAppend(item: Item, a: seq<Condition>, b: seq<Condition>)
    ensures Matches(item, a + b) <==> Matches(item, a) && Matches(item, b)
  {
    if Matches(item, a) && Matches(item, b) {
      forall i | 0 <= i < |a + b|
        ensures (a + b)[i].attribute in item && item[(a + b)[i].attribute] == Str((a + b)[i].value)
      {
        if i >= |a| { assert (a + b)[i] == b[i - |a|]; }
      }
    }
    if Matches(item, a + b) {
      forall i | 0 <= i < |a| ensures a[i].attribute in item && item[a[i].attribute] == Str(a[i].value) {
        assert (a + b)[i] == a[i];
      }
      forall i | 0 <= i < |b| ensures b[i].attribute in item && item[b[i].attribute] == Str(b[i].value) {
        assert (a + b)[|a| + i] == b[i];
      }
    }
  }

  /** The expression the scan sends holds of an item exactly when the item
      satisfies every given argument. */
  lemma MatchesIff(item: Item, f: ScanFilter)
    ensures Matches(item, Conditions(f)) <==> Satisfies(item, f)
  {
    var a := FamiliaCondition(f);
    var b := AtributoDataCondition(f);
    var c := SerieCondition(f);
    var d := AtributoCondition(f);
    var e := DataInicioCondition(f);
    var g := DataFimCondition(f);
    MatchesAppend(item, a + b + c + d + e, g);
    MatchesAppend(item, a + b + c + d, e);
    MatchesAppend(item, a + b + c, d);
    MatchesAppend(item, a + b, c);
    MatchesAppend(item, a, b);
    MatchesSingle(item, a);
    MatchesSingle(item, b);
    MatchesSingle(item, c);
    MatchesSingle(item, d);
    MatchesSingle(item, e);
    MatchesSingle(item, g);
  }

  lemma MatchesSingle(item: Item, cs: seq<Condition>)
    requires |cs| <= 1
    ensures Matches(item, cs) <==> (|cs| == 1 ==> cs[0].attribute in item && item[cs[0].attribute] == Str(cs[0].value))
  {
  }

  /** g asks for nothing f does not: every argument g gives, f gives too, with
      the same value. */
  predicate Narrows(f: ScanFilter, g: ScanFilter)
  {
    (!IsNullOrWhiteSpace(g.nomeFamilia) ==> f.nomeFamilia == g.nomeFamilia)
    && (!IsNullOrWhiteSpace(g.nomeAtributoDataInicioVigencia) ==>
      f.nomeAtributoDataInicioVigencia == g.nomeAtributoDataInicioVigencia)
    && (!IsNullOrWhiteSpace(g.nomeSerie) ==> f.nomeSerie == g.nomeSerie)
    && (!IsNullOrWhiteSpace(g.nomeAtributo) ==> f.nomeAtributo == g.nomeAtributo)
    && (g.dataInicioVigencia.Some? ==> f.dataInicioVigencia == g.dataInicioVigencia)
    && (g.dataFimVigencia.Some? ==> f.dataFimVigencia == g.dataFimVigencia)
  }

  /** Giving more arguments can only drop items from the scan's answer. */
  lemma NarrowerFilterMatchesFewer(item: Item, f: ScanFilter, g: ScanFilter)
    requires Narrows(f, g)
    ensures Matches(item, Conditions(f)) ==> Matches(item, Conditions(g))
  {
    MatchesIff(item, f);
    MatchesIff(item, g);
  }

  /** Without arguments the scan sends no expression and keeps every item. */
  lemma NoFilterKeepsAll(item: Item)
    ensures Conditions(NoFilter) == [] && Values(Conditions(NoFilter)) == map[]
    ensures Matches(item, Conditions(NoFilter))
  {
  }

  /** On an item the codec wrote, the filter reads as equalities on the stored
      value's fields. */
  predicate ValorSatisfies(v: ValorDynamoDB, f: ScanFilter)
  {
    (!IsNullOrWhiteSpace(f.nomeFamilia) ==> v.nomeFamilia == f.nomeFamilia.value)
    && (!IsNullOrWhiteSpace(f.nomeAtributoDataInicioVigencia) ==>
      SortKey(v.nomeAtributo, v.dataInicioVigencia) == f.nomeAtributoDataInicioVigencia.value)
    && (!IsNullOrWhiteSpace(f.nomeSerie) ==> v.nomeSerie == f.nomeSerie.value)
    && (!IsNullOrWhiteSpace(f.nomeAtributo) ==> v.nomeAtributo == f.nomeAtributo.value)
    && (f.dataInicioVigencia.Some? ==> v.dataInicioVigencia == f.dataInicioVigencia.value)
    && (f.dataFimVigencia.Some? ==> v.dataFimVigencia == f.dataFimVigencia.value)
  }

  lemma StoredItemMatchesIff(v: ValorDynamoDB, f: ScanFilter)
    ensures Matches(ConvertToItem(v), Conditions(f)) <==> ValorSatisfies(v, f)
  {
    var item := ConvertToItem(v);
    MatchesIff(item, f);
    if f.dataInicioVigencia.Some? && FormatDate(v.dataInicioVigencia) == FormatDate(f.dataInicioVigencia.value) {
      FormatDateInjective(v.dataInicioVigencia, f.dataInicioVigencia.value);
    }
    if f.dataFimVigencia.Some? && FormatDate(v.dataFimVigencia) == FormatDate(f.dataFimVigencia.value) {
      FormatDateInjective(v.dataFimVigencia, f.dataFimVigencia.value);
    }
  }

  /** The clauses of ValorSatisfies that a value read back can be checked
      against: all but the composite sort key, which is not read. */
  predicate FieldsSatisfy(v: ValorDynamoDB, f: ScanFilter)
  {
    (!IsNullOrWhiteSpace(f.nomeFamilia) ==> v.nomeFamilia == f.nomeFamilia.value)
    && (!IsNullOrWhiteSpace(f.nomeSerie) ==> v.nomeSerie == f.nomeSerie.value)
    && (!IsNullOrWhiteSpace(f.nomeAtributo) ==> v.nomeAtributo == f.nomeAtributo.value)
    && (f.dataInicioVigencia.Some? ==> v.dataInicioVigencia == f.dataInicioVigencia.value)
    && (f.dataFimVigencia.Some? ==> v.dataFimVigencia == f.dataFimVigencia.value)
  }

  /** A value read from an item the filter expression keeps satisfies every
      argument given. */
  lemma MatchedReadSatisfies(item: Item, f: ScanFilter, v: ValorDynamoDB)
    requires Matches(item, Conditions(f)) && ConvertFromItemInvariant(item) == Ok(v)
    ensures FieldsSatisfy(v, f)
  {
    MatchesIff(item, f);
    ConvertedFields(item, InvariantCulture, v);
    if f.dataInicioVigencia.Some? {
      ParseFormatDate(f.dataInicioVigencia.value);
    }
    if f.dataFimVigencia.Some? {
      ParseFormatDate(f.dataFimVigencia.value);
    }
  }
}
