/** DynamoDBRepository over an in-memory table: single and batch puts, the
    lookup by primary key, the generic filtered scan, and the two loops that
    follow the scan cursor (CaptureBatchAsync and DeleteAllItemsAsync). */
module DynamoRepository {
  import opened Wrappers
  import opened Dates
  import opened Sequences
  import opened Decimals
  import opened Models
  import opened DynamoItems
  import opened DynamoFilters
  import opened DynamoTable
  import opened DynamoQueries

  /** A value as it reads back after a write: the update time to the second. */
  function Truncated(v: ValorDynamoDB): ValorDynamoDB
  {
    v.(dataAtualizacao := v.dataAtualizacao.(ticks := 0))
  }

  // ---------------------------------------------------------------------------
  // BatchWriteItem

  /** The PutRequests of BatchInsertValoresAsync, one per value in order. */
  function BatchRequest(valores: seq<ValorDynamoDB>): seq<Item>
  {
    Each(valores, ConvertToItem)
  }

  /** One put per value, in order: the i-th request is stored under the i-th
      value's key and reads back as that value. */
  lemma BatchRequestProps(valores: seq<ValorDynamoDB>)
    ensures |BatchRequest(valores)| == |valores|
    ensures forall i :: 0 <= i < |valores| ==> KeyOf(BatchRequest(valores)[i]) == Ok(ValorKey(valores[i]))
    ensures ConvertAll(BatchRequest(valores)) == Ok(seq(|valores|, i requires 0 <= i < |valores| => Truncated(valores[i])))
  {
    var request := BatchRequest(valores);
    var expected := seq(|valores|, i requires 0 <= i < |valores| => Truncated(valores[i]));
    forall i | 0 <= i < |valores| ensures ConvertFromItemInvariant(request[i]) == Ok(expected[i]) {
      ConvertRoundTripInvariant(valores[i]);
    }
    var r := ConvertAll(request);
    MapResultProps(request, ConvertFromItemInvariant);
    assert r.Ok?;
    assert r.value == expected by {
      forall i | 0 <= i < |valores| ensures r.value[i] == expected[i] {
        assert ConvertFromItemInvariant(request[i]) == Ok(r.value[i]);
      }
    }
  }

  lemma BatchRequestAppend(a: seq<ValorDynamoDB>, b: seq<ValorDynamoDB>)
    ensures BatchRequest(a + b) == BatchRequest(a) + BatchRequest(b)
  {
    EachAppend(a, b, ConvertToItem);
  }

  /** Why the table refuses a batch: DynamoDB rejects a BatchWriteItem with no
      request, with more than 25, or with two requests for one key. */
  datatype BatchError = ValidationError

  predicate BatchRejected(batch: seq<Item>)
  {
    |batch| == 0 || |batch| > 25 || !KeysUnique(batch)
  }

  /** A batch of values is accepted exactly when it has between 1 and 25
      values and no two share a primary key. */
  lemma BatchAcceptedIff(valores: seq<ValorDynamoDB>)
    ensures !BatchRejected(BatchRequest(valores)) <==>
      1 <= |valores| <= 25 && forall i, j :: 0 <= i < j < |valores| ==> ValorKey(valores[i]) != ValorKey(valores[j])
  {
    BatchRequestProps(valores);
    var request := BatchRequest(valores);
    if forall i, j :: 0 <= i < j < |valores| ==> ValorKey(valores[i]) != ValorKey(valores[j]) {
      assert KeysUnique(request) by {
        forall i, j | 0 <= i < j < |request| ensures KeyOf(request[i]) != KeyOf(request[j]) {
          assert KeyOf(request[i]) == Ok(ValorKey(valores[i]));
        }
      }
    }
    if KeysUnique(request) {
      forall i, j | 0 <= i < j < |valores| ensures ValorKey(valores[i]) != ValorKey(valores[j]) {
        assert KeyOf(request[i]) != KeyOf(request[j]);
      }
    }
  }

  // ---------------------------------------------------------------------------
  // GetItem

  /** GetValorKeyItemAsync: the item under the key, or the empty item the
      client answers with when there is none, converted. (A client that
      leaves `response.Item` null instead fails with a null reference.) */
  function KeyItem(items: seq<Item>, nomeSerie: string, sortKey: string): (r: Result<ValorDynamoDB, ConversionError>)
    ensures Lookup(items, Key(Str(nomeSerie), Str(sortKey))).None? ==> r == Err(KeyNotFound("NomeFamilia"))
  {
    EmptyItemFails(InvariantCulture);
    match Lookup(items, Key(Str(nomeSerie), Str(sortKey)))
    case Some(item) => ConvertFromItemInvariant(item)
    case None => ConvertFromItemInvariant(map[])
  }

  /** A value put and then looked up under its series and composite key reads
      back as written, to the second. */
  lemma KeyItemAfterPut(items: seq<Item>, v: ValorDynamoDB)
    ensures KeyItem(Put(items, ConvertToItem(v)), v.nomeSerie, SortKey(v.nomeAtributo, v.dataInicioVigencia))
      == Ok(Truncated(v))
  {
    PutLookup(items, ConvertToItem(v), ValorKey(v));
    ConvertRoundTripInvariant(v);
  }

  // ---------------------------------------------------------------------------
  // The filtered scan

  /** The equalities a filter's conditions state. */
  function EqsOf(cs: seq<Condition>): (eqs: seq<Eq>)
    ensures |eqs| == |cs|
    ensures forall i :: 0 <= i < |cs| ==> eqs[i] == Eq(cs[i].attribute, cs[i].value)
  {
    seq(|cs|, i requires 0 <= i < |cs| => Eq(cs[i].attribute, cs[i].value))
  }

  lemma MatchesIffHolds(item: Item, cs: seq<Condition>)
    ensures Matches(item, cs) <==> Holds(item, EqsOf(cs))
  {
  }

  /** What GetValoresComFiltrosAsync's single scan returns: the first page,
      filtered by the expression. */
  function ScanItems(items: seq<Item>, f: ScanFilter, pageItems: nat): seq<Item>
  {
    Select(Page(items, pageItems), EqsOf(Conditions(f)))
  }

  /** The request the scan sends. */
  datatype ScanRequest = ScanRequest(filterExpression: string, expressionAttributeValues: map<string, AttributeValue>)

  /** Every value the filtered scan returns was read from a stored item that
      satisfies each given argument; when the whole table fits on one page,
      every written value satisfying them is returned. */
  lemma ScanResults(items: seq<Item>, f: ScanFilter, pageItems: nat)
    ensures ConvertAll(ScanItems(items, f, pageItems)).Ok? ==>
      forall v :: v in ConvertAll(ScanItems(items, f, pageItems)).value ==> FieldsSatisfy(v, f)
    ensures |items| <= pageItems ==>
      forall v :: ConvertToItem(v) in items && ValorSatisfies(v, f) ==> ConvertToItem(v) in ScanItems(items, f, pageItems)
  {
    var found := ScanItems(items, f, pageItems);
    MapResultProps(found, ConvertFromItemInvariant);
    if ConvertAll(found).Ok? {
      var vs := ConvertAll(found).value;
      forall v | v in vs ensures FieldsSatisfy(v, f) {
        var i :| 0 <= i < |vs| && vs[i] == v;
        assert found[i] in found;
        MatchesIffHolds(found[i], Conditions(f));
        MatchedReadSatisfies(found[i], f, v);
      }
    }
    forall v | |items| <= pageItems && ConvertToItem(v) in items && ValorSatisfies(v, f)
      ensures ConvertToItem(v) in found
    {
      StoredItemMatchesIff(v, f);
      MatchesIffHolds(ConvertToItem(v), Conditions(f));
    }
  }

  // ---------------------------------------------------------------------------
  // CaptureBatchAsync's stopping rule

  /** The number of pages CaptureBatchAsync reads, from page k on, having
      collected count values: it stops after the first page that brings the
      count to limit or whose cursor is null or empty. */
  function CaptureFrom(pages: seq<ScanPage>, limit: int, k: nat, count: int): (n: nat)
    requires ScanEnds(pages) && k < |pages|
    ensures k < n <= |pages|
    decreases |pages| - k
  {
    var c := count + |pages[k].items|;
    if c >= limit || Exhausted(pages[k].lastEvaluatedKey) then k + 1
    else CaptureFrom(pages, limit, k + 1, c)
  }

  /** One step of the stopping rule: a page that leaves the count below the
      limit with the scan going on is followed by another. */
  lemma CaptureFromStep(pages: seq<ScanPage>, limit: int, k: nat, count: int, c: int)
    requires ScanEnds(pages) && k < |pages| && c == count + |pages[k].items|
    requires !(c >= limit || Exhausted(pages[k].lastEvaluatedKey))
    ensures k + 1 < |pages|
    ensures CaptureFrom(pages, limit, k, count) == CaptureFrom(pages, limit, k + 1, c)
  {
  }

  function PagesCaptured(pages: seq<ScanPage>, limit: int): nat
    requires ScanEnds(pages)
  {
    CaptureFrom(pages, limit, 0, 0)
  }

  lemma {:induction false} CaptureFromProps(pages: seq<ScanPage>, limit: int, k: nat, n: nat)
    requires ScanEnds(pages) && k < |pages|
    requires n == CaptureFrom(pages, limit, k, |ScannedItems(pages[..k])|)
    ensures |ScannedItems(pages[..n])| >= limit || Exhausted(pages[n - 1].lastEvaluatedKey)
    decreases |pages| - k
  {
    ScannedItemsNext(pages, k);
    var c := |ScannedItems(pages[..k])| + |pages[k].items|;
    assert c == |ScannedItems(pages[..k + 1])|;
    if !(c >= limit || Exhausted(pages[k].lastEvaluatedKey)) {
      CaptureFromProps(pages, limit, k + 1, n);
    }
  }

  /** Every page read before the last left the count below the limit with the
      scan going on. */
  lemma {:induction false} CaptureFromBefore(pages: seq<ScanPage>, limit: int, k: nat, n: nat, j: nat)
    requires ScanEnds(pages) && k < |pages|
    requires n == CaptureFrom(pages, limit, k, |ScannedItems(pages[..k])|)
    requires k <= j < n - 1
    ensures |ScannedItems(pages[..j + 1])| < limit && !Exhausted(pages[j].lastEvaluatedKey)
    decreases |pages| - k
  {
    ScannedItemsNext(pages, k);
    var c := |ScannedItems(pages[..k])| + |pages[k].items|;
    assert c == |ScannedItems(pages[..k + 1])|;
    assert !(c >= limit || Exhausted(pages[k].lastEvaluatedKey)) && n == CaptureFrom(pages, limit, k + 1, c);
    if k < j {
      CaptureFromBefore(pages, limit, k + 1, n, j);
    }
  }

  /** At least one page is read; the last page read brought the count to the
      limit or ended the scan; every earlier page left the count below the
      limit with the scan going on; so with pages of at most 500 items
      (Limit = 500) fewer than limit + 500 values are collected. */
  lemma CaptureProps(pages: seq<ScanPage>, limit: int)
    requires ScanEnds(pages)
    ensures var n := PagesCaptured(pages, limit);
      1 <= n <= |pages|
      && (|ScannedItems(pages[..n])| >= limit || Exhausted(pages[n - 1].lastEvaluatedKey))
      && (forall j :: 0 <= j < n - 1 ==>
        |ScannedItems(pages[..j + 1])| < limit && !Exhausted(pages[j].lastEvaluatedKey))
    ensures (forall i :: 0 <= i < |pages| ==> |pages[i].items| <= 500) ==>
      |ScannedItems(pages[..PagesCaptured(pages, limit)])| <= (if limit > 1 then limit - 1 else 0) + 500
  {
    assert pages[..0] == [];
    var n := PagesCaptured(pages, limit);
    CaptureFromProps(pages, limit, 0, n);
    forall j | 0 <= j < n - 1
      ensures |ScannedItems(pages[..j + 1])| < limit && !Exhausted(pages[j].lastEvaluatedKey)
    {
      CaptureFromBefore(pages, limit, 0, n, j);
    }
    ScannedItemsNext(pages, n - 1);
    if n == 1 {
      assert pages[..0] == [];
    }
  }

  lemma {:induction false} ScannedPrefix(pages: seq<ScanPage>, m: nat, n: nat)
    requires m <= n <= |pages|
    ensures ScannedItems(pages[..m]) <= ScannedItems(pages[..n])
    decreases n - m
  {
    if m < n {
      ScannedPrefix(pages, m, n - 1);
      ScannedItemsNext(pages, n - 1);
    }
  }

  /** A conversion failure within a prefix is the failure of the whole. */
  lemma ConvertAllPrefixErr(a: seq<Item>, b: seq<Item>)
    requires a <= b && ConvertAll(a).Err?
    ensures ConvertAll(b) == ConvertAll(a)
  {
    MapResultAppend(a, b[|a|..], ConvertFromItemInvariant);
    assert a + b[|a|..] == b;
  }

  lemma ConvertAllSnoc(a: seq<Item>, x: Item)
    requires ConvertAll(a).Ok?
    ensures ConvertAll(a + [x]) == match ConvertFromItemInvariant(x)
      case Ok(v) => Ok(ConvertAll(a).value + [v])
      case Err(e) => Err(e)
  {
    assert (a + [x])[..|a|] == a;
  }

  // ---------------------------------------------------------------------------
  // DeleteAllItemsAsync

  /** The deletes of a scan: the keys deleted, one per scanned item in order,
      until an item fails to convert or lacks a key attribute. */
  datatype DeletePass = DeletePass(keys: seq<Key>, error: Option<ConversionError>)

  /** One scanned item: it is converted (and the result dropped), then its
      key attributes are read for the delete. */
  function DeleteKey(item: Item): (r: Result<Key, ConversionError>)
    ensures r.Ok? ==> r == KeyOf(item)
    ensures ConvertFromItemInvariant(item).Err? ==> r == Err(ConvertFromItemInvariant(item).error)
  {
    var _ :- ConvertFromItemInvariant(item);
    KeyOf(item)
  }

  function DeletePassOf(scanned: seq<Item>): (p: DeletePass)
    ensures |p.keys| <= |scanned|
    ensures p.error.None? ==> |p.keys| == |scanned|
    ensures forall i :: 0 <= i < |p.keys| ==> KeyOf(scanned[i]) == Ok(p.keys[i])
  {
    if |scanned| == 0 then DeletePass([], None)
    else
      var p := DeletePassOf(scanned[..|scanned| - 1]);
      if p.error.Some? then p
      else
        var step := DeleteKey(scanned[|scanned| - 1]);
        if step.Ok? then DeletePass(p.keys + [step.value], None)
        else DeletePass(p.keys, Some(step.error))
  }

  lemma DeletePassSnoc(a: seq<Item>, x: Item)
    ensures DeletePassOf(a + [x]) ==
      if DeletePassOf(a).error.Some? then DeletePassOf(a)
      else match DeleteKey(x)
        case Ok(key) => DeletePass(DeletePassOf(a).keys + [key], None)
        case Err(e) => DeletePass(DeletePassOf(a).keys, Some(e))
  {
    assert (a + [x])[..|a|] == a;
  }

  /** One item of a page whose key is read: the pass goes on with its key,
      and the table loses the item under it. */
  lemma DeleteStepOk(table: seq<Item>, before: seq<Item>, pageItems: seq<Item>, j: nat, keys: seq<Key>, key: Key)
    requires j < |pageItems| && DeletePassOf(before + pageItems[..j]) == DeletePass(keys, None)
    requires DeleteKey(pageItems[j]) == Ok(key)
    ensures DeletePassOf(before + pageItems[..j + 1]) == DeletePass(keys + [key], None)
    ensures Without(WithoutAll(table, keys), key) == WithoutAll(table, keys + [key])
  {
    PrefixSnoc(before, pageItems, j);
    DeletePassSnoc(before + pageItems[..j], pageItems[j]);
    assert (keys + [key])[..|keys|] == keys;
  }

  /** One item of a page that fails: the pass stops there, whatever follows. */
  lemma DeleteStepErr(before: seq<Item>, pageItems: seq<Item>, j: nat, keys: seq<Key>, e: ConversionError)
    requires j < |pageItems| && DeletePassOf(before + pageItems[..j]) == DeletePass(keys, None)
    requires DeleteKey(pageItems[j]) == Err(e)
    ensures DeletePassOf(before + pageItems) == DeletePass(keys, Some(e))
  {
    PrefixSnoc(before, pageItems, j);
    DeletePassSnoc(before + pageItems[..j], pageItems[j]);
    DeletePassSticky(before + pageItems[..j + 1], before + pageItems);
  }

  /** One page of deletes: a failure or a finished cursor ends the pass that
      the whole scan loop makes; otherwise the loop goes on to the next page. */
  lemma DeletePageStep(pages: seq<ScanPage>, k: nat, keys: seq<Key>, error: Option<ConversionError>)
    requires ScanEnds(pages) && k < |pages| && PagesUntilEnd(pages, 0) == PagesUntilEnd(pages, k)
    requires DeletePassOf(ScannedItems(pages[..k]) + pages[k].items) == DeletePass(keys, error)
    ensures error.Some? || Exhausted(pages[k].lastEvaluatedKey) ==>
      DeletePassOf(ScannedItems(pages[..PagesUntilEnd(pages, 0)])) == DeletePass(keys, error)
    ensures error.None? && !Exhausted(pages[k].lastEvaluatedKey) ==>
      k + 1 < |pages| && PagesUntilEnd(pages, 0) == PagesUntilEnd(pages, k + 1)
      && DeletePassOf(ScannedItems(pages[..k + 1])) == DeletePass(keys, None)
  {
    var n := PagesUntilEnd(pages, 0);
    ScannedItemsNext(pages, k);
    if error.Some? {
      ScannedPrefix(pages, k + 1, n);
      DeletePassSticky(ScannedItems(pages[..k + 1]), ScannedItems(pages[..n]));
    }
  }

  /** Where the loop leaves after page k: on a failed item, or after a
      finished cursor, the outcome of the whole scan is decided there. */
  lemma DeleteOutcomeAt(pages: seq<ScanPage>, k: nat, keys: seq<Key>, error: Option<ConversionError>)
    requires ScanEnds(pages) && k < |pages| && PagesUntilEnd(pages, 0) == PagesUntilEnd(pages, k)
    requires DeletePassOf(ScannedItems(pages[..k]) + pages[k].items) == DeletePass(keys, error)
    ensures error.Some? ==>
      DeleteOutcomeAsWritten(pages) == Err(ConversionFailed(error.value))
      && DeleteOutcomeNullChecked(pages) == Err(error.value)
    ensures error.None? && Exhausted(pages[k].lastEvaluatedKey) ==>
      DeleteOutcomeNullChecked(pages) == Ok(|keys|)
      && DeleteOutcomeAsWritten(pages)
        == if pages[k].lastEvaluatedKey.None? then Err(CursorFailed(NullReference)) else Ok(|keys|)
  {
    DeletePageStep(pages, k, keys, error);
    var n := PagesUntilEnd(pages, 0);
    var pass := DeletePassOf(ScannedItems(pages[..n]));
    if error.Some? {
      assert pass == DeletePass(keys, error);
    } else if Exhausted(pages[k].lastEvaluatedKey) {
      assert n == k + 1;
      assert pass == DeletePass(keys, None);
    }
  }

  /** Once a delete fails, later pages change nothing. */
  lemma {:induction false} DeletePassSticky(a: seq<Item>, b: seq<Item>)
    requires a <= b && DeletePassOf(a).error.Some?
    ensures DeletePassOf(b) == DeletePassOf(a)
    decreases |b|
  {
    if |b| > |a| {
      var b' := b[..|b| - 1];
      assert a <= b';
      DeletePassSticky(a, b');
      assert b == b' + [b[|b| - 1]];
      DeletePassSnoc(b', b[|b| - 1]);
    } else {
      assert a == b;
    }
  }

  /** When every stored item is among the scanned ones and every delete went
      through, no stored item is left. */
  lemma DeleteAllEmptiesTable(table: seq<Item>, scanned: seq<Item>)
    requires forall x :: x in table ==> x in scanned
    requires DeletePassOf(scanned).error.None?
    ensures forall x :: x !in WithoutAll(table, DeletePassOf(scanned).keys)
  {
    var keys := DeletePassOf(scanned).keys;
    forall x ensures x !in WithoutAll(table, keys) {
      if x in table {
        var i :| 0 <= i < |scanned| && scanned[i] == x;
        assert keys[i] in keys;
      }
    }
  }

  lemma {:induction false} WithoutKeysUnique(items: seq<Item>, key: Key)
    requires KeysUnique(items)
    ensures KeysUnique(Without(items, key))
  {
    if |items| > 0 {
      KeysUniqueTail(items);
      WithoutKeysUnique(items[1..], key);
      var rest := Without(items[1..], key);
      if KeyOf(items[0]) != Ok(key) {
        var r := [items[0]] + rest;
        forall i, j | 0 <= i < j < |r| ensures KeyOf(r[i]) != KeyOf(r[j]) {
          if i == 0 {
            assert r[j] in items[1..];
            var m :| 0 <= m < |items[1..]| && items[1..][m] == r[j];
            assert items[m + 1] == r[j];
          } else {
            assert r[i] == rest[i - 1] && r[j] == rest[j - 1];
          }
        }
        forall i | 0 <= i < |r| ensures KeyOf(r[i]).Ok? {
          if i > 0 { assert r[i] in items[1..]; }
        }
      }
    }
  }

  /** The loop condition `lastEvaluatedKey.Count > 0` as written: it
      dereferences the cursor, so a null cursor throws. */
  datatype CursorError = NullReference

  function DeleteLoopContinuesAsWritten(cursor: Option<Item>): (r: Result<bool, CursorError>)
    ensures r.Err? <==> cursor.None?
    ensures r.Ok? ==> (r.value <==> !Exhausted(cursor))
  {
    if cursor.None? then Err(NullReference) else Ok(|cursor.value| > 0)
  }

  /** Why DeleteAllItemsAsync stops early: an item that does not convert or
      lacks a key attribute, or the loop condition on a null cursor. */
  datatype DeleteError = ConversionFailed(conversion: ConversionError) | CursorFailed(cursor: CursorError)

  /** The outcome of DeleteAllItemsAsync as written over the pages of a scan:
      the pass over the pages read fails on its first bad item; after a page
      whose cursor is null the loop condition throws; otherwise the count of
      deletes. */
  function DeleteOutcomeAsWritten(pages: seq<ScanPage>): Result<nat, DeleteError>
    requires ScanEnds(pages)
  {
    var n := PagesUntilEnd(pages, 0);
    var pass := DeletePassOf(ScannedItems(pages[..n]));
    if pass.error.Some? then Err(ConversionFailed(pass.error.value))
    else if pages[n - 1].lastEvaluatedKey.None? then Err(CursorFailed(NullReference))
    else Ok(|pass.keys|)
  }

  /** The outcome with the loop condition null-checked, as CaptureBatchAsync
      checks it: a null cursor ends the loop like an empty one. */
  function DeleteOutcomeNullChecked(pages: seq<ScanPage>): Result<nat, ConversionError>
    requires ScanEnds(pages)
  {
    var pass := DeletePassOf(ScannedItems(pages[..PagesUntilEnd(pages, 0)]));
    if pass.error.Some? then Err(pass.error.value) else Ok(|pass.keys|)
  }

  /** The two outcomes differ only when the last page read has a null cursor:
      the written loop then throws after deleting what the checked loop
      deletes. */
  lemma DeleteOutcomesAgree(pages: seq<ScanPage>)
    requires ScanEnds(pages)
    ensures var n := PagesUntilEnd(pages, 0);
      match DeleteOutcomeNullChecked(pages)
      case Err(e) => DeleteOutcomeAsWritten(pages) == Err(ConversionFailed(e))
      case Ok(count) => (DeleteOutcomeAsWritten(pages)
        == if pages[n - 1].lastEvaluatedKey.None? then Err(CursorFailed(NullReference)) else Ok(count))
  {
  }

  /** A scan whose only page holds one stored value and ends with a null
      cursor: the value is deleted, then the written loop throws where the
      checked loop answers one delete. */
  lemma NullCursorScanThrowsAfterDeleting(v: ValorDynamoDB)
    ensures var pages := [ScanPage([ConvertToItem(v)], None)];
      ScanEnds(pages) && PagesUntilEnd(pages, 0) == 1
      && DeletePassOf(ScannedItems(pages)) == DeletePass([ValorKey(v)], None)
      && DeleteOutcomeAsWritten(pages) == Err(CursorFailed(NullReference))
      && DeleteOutcomeNullChecked(pages) == Ok(1)
  {
    var pages := [ScanPage([ConvertToItem(v)], None)];
    ConvertRoundTripInvariant(v);
    assert pages[..0] == [];
    assert pages[..1] == pages;
    assert ScannedItems(pages) == [ConvertToItem(v)];
    DeletePassSnoc([], ConvertToItem(v));
    assert [] + [ConvertToItem(v)] == [ConvertToItem(v)];
  }

  // ---------------------------------------------------------------------------
  // The repository

  /** The foreach over one scanned page of CaptureBatchAsync: each item is
      converted and added to the list; a failed conversion throws. */
  method ConvertPage(lista: seq<ValorDynamoDB>, pageItems: seq<Item>, ghost before: seq<Item>)
    returns (r: Result<seq<ValorDynamoDB>, ConversionError>)
    requires ConvertAll(before) == Ok(lista)
    ensures r == ConvertAll(before + pageItems)
  {
    var acc := lista;
    var j := 0;
    assert before + pageItems[..0] == before;
    while j < |pageItems|
      invariant 0 <= j <= |pageItems|
      invariant ConvertAll(before + pageItems[..j]) == Ok(acc)
    {
      var item := pageItems[j];
      var valor := ConvertFromItemInvariant(item);
      assert ConvertAll(before + pageItems[..j + 1]) == if valor.Ok? then Ok(acc + [valor.value]) else Err(valor.error) by {
        PrefixSnoc(before, pageItems, j);
        ConvertAllSnoc(before + pageItems[..j], item);
      }
      if valor.Err? {
        assert ConvertAll(before + pageItems) == Err(valor.error) by {
          ConvertAllPrefixErr(before + pageItems[..j + 1], before + pageItems);
        }
        return Err(valor.error);
      }
      acc := acc + [valor.value];
      j := j + 1;
    }
    assert pageItems[..j] == pageItems;
    r := Ok(acc);
  }

  class DynamoDBRepository {
    /** The table, in the order a scan returns it. */
    var items: seq<Item>
    /** How many items one response page holds (the 1 MB page of the service). */
    const pageItems: nat

    ghost predicate Valid()
      reads this
    {
      KeysUnique(items)
    }

    constructor(pageItems: nat)
      ensures Valid() && items == [] && this.pageItems == pageItems
    {
      this.items := [];
      this.pageItems := pageItems;
    }

    /** InsertValorAsync: one PutItem of the encoded value. */
    method InsertValor(valor: ValorDynamoDB)
      requires Valid()
      modifies this
      ensures Valid()
      ensures items == Put(old(items), ConvertToItem(valor))
    {
      PutKeysUnique(items, ConvertToItem(valor));
      items := Put(items, ConvertToItem(valor));
    }

    /** BatchInsertValoresAsync: one BatchWriteItem with a PutRequest per value;
        the table applies all of it or, when it refuses the batch, none. */
    method BatchInsertValores(valores: seq<ValorDynamoDB>) returns (r: Result<(), BatchError>)
      requires Valid()
      modifies this
      ensures Valid()
      ensures r.Err? <==> BatchRejected(BatchRequest(valores))
      ensures items == if r.Ok? then PutAll(old(items), BatchRequest(valores)) else old(items)
    {
      var request := BatchRequest(valores);
      if BatchRejected(request) {
        return Err(ValidationError);
      }
      PutAllKeysUnique(items, request);
      items := PutAll(items, request);
      return Ok(());
    }

    /** GetValorKeyItemAsync. */
    function GetValorKeyItem(nomeSerie: string, sortKey: string): Result<ValorDynamoDB, ConversionError>
      reads this
    {
      KeyItem(items, nomeSerie, sortKey)
    }

    /** Each Get*Async query method: its request, run against the table. */
    function Query(q: QueryRequest): Result<seq<ValorDynamoDB>, ConversionError>
      reads this
    {
      RunQuery(items, q, pageItems)
    }

    /** GetValoresComFiltrosAsync: builds the filter expression and its values,
        then reads the first page of one scan. */
    method GetValoresComFiltros(f: ScanFilter) returns (request: ScanRequest, r: Result<seq<ValorDynamoDB>, ConversionError>)
      ensures request.filterExpression == Join(" AND ", FilterParts(f))
      ensures request.expressionAttributeValues == Values(Conditions(f))
      ensures r == ConvertAll(ScanItems(items, f, pageItems))
    {
      var expression := BuildFilterExpression(f);
      var values := BuildExpressionAttributeValues(f);
      request := ScanRequest(expression, values);
      r := ConvertAll(ScanItems(items, f, pageItems));
    }

    /** CaptureBatchAsync over the pages the scans answer with: every item of
        every page read, converted in order; maxItens is not used. */
    method CaptureBatch(maxItens: int, limit: int, pages: seq<ScanPage>) returns (r: Result<seq<ValorDynamoDB>, ConversionError>)
      requires ScanEnds(pages)
      ensures r == ConvertAll(ScannedItems(pages[..PagesCaptured(pages, limit)]))
    {
      var lista: seq<ValorDynamoDB> := [];
      var k := 0;
      assert pages[..0] == [];
      ghost var n := PagesCaptured(pages, limit);
      while true
        invariant k < |pages|
        invariant ConvertAll(ScannedItems(pages[..k])) == Ok(lista)
        invariant n == CaptureFrom(pages, limit, k, |lista|)
        decreases |pages| - k
      {
        var page := pages[k];
        var lastEvaluatedKey := page.lastEvaluatedKey;
        ghost var count := |lista|;
        ScannedItemsNext(pages, k);
        var added := ConvertPage(lista, page.items, ScannedItems(pages[..k]));
        if added.Err? {
          ScannedPrefix(pages, k + 1, n);
          ConvertAllPrefixErr(ScannedItems(pages[..k + 1]), ScannedItems(pages[..n]));
          return added;
        }
        lista := added.value;
        assert |lista| == count + |page.items|;
        if |lista| >= limit || lastEvaluatedKey == None || |lastEvaluatedKey.value| == 0 {
          assert n == k + 1;
          return Ok(lista);
        }
        CaptureFromStep(pages, limit, k, count, |lista|);
        k := k + 1;
      }
    }

    /** The foreach over one scanned page of DeleteAllItemsAsync: each item is
        converted, then deleted by its key, and counted. */
    method DeletePage(pageItems: seq<Item>, deletedCount: nat, ghost table: seq<Item>, ghost before: seq<Item>, ghost keys: seq<Key>)
      returns (r: Result<nat, ConversionError>, ghost keys': seq<Key>)
      requires Valid() && DeletePassOf(before) == DeletePass(keys, None)
      requires items == WithoutAll(table, keys) && deletedCount == |keys|
      modifies this
      ensures Valid() && items == WithoutAll(table, keys')
      ensures DeletePassOf(before + pageItems) == DeletePass(keys', if r.Err? then Some(r.error) else None)
      ensures r.Ok? ==> r.value == |keys'|
    {
      var count := deletedCount;
      keys' := keys;
      var j := 0;
      assert pageItems[..0] == [] && before + [] == before;
      while j < |pageItems|
        invariant 0 <= j <= |pageItems| && Valid()
        invariant DeletePassOf(before + pageItems[..j]) == DeletePass(keys', None)
        invariant items == WithoutAll(table, keys') && count == |keys'|
      {
        var item := pageItems[j];
        var valor := ConvertFromItemInvariant(item);
        if valor.Err? {
          DeleteStepErr(before, pageItems, j, keys', valor.error);
          return Err(valor.error), keys';
        }
        var key := KeyOf(item);
        if key.Err? {
          DeleteStepErr(before, pageItems, j, keys', key.error);
          return Err(key.error), keys';
        }
        DeleteStepOk(table, before, pageItems, j, keys', key.value);
        WithoutKeysUnique(items, key.value);
        items := Without(items, key.value);
        keys' := keys' + [key.value];
        count := count + 1;
        j := j + 1;
      }
      assert pageItems[..j] == pageItems;
      r := Ok(count);
    }

    /** DeleteAllItemsAsync over the pages the scans answer with, with the
        loop condition null-checked: one DeleteItem per scanned item, keyed by
        its two key attributes, until the cursor ends; it answers with the
        count of deletes. */
    method DeleteAllItemsNullChecked(pages: seq<ScanPage>) returns (r: Result<nat, ConversionError>)
      requires Valid() && ScanEnds(pages)
      modifies this
      ensures Valid()
      ensures items == WithoutAll(old(items), DeletePassOf(ScannedItems(pages[..PagesUntilEnd(pages, 0)])).keys)
      ensures r == DeleteOutcomeNullChecked(pages)
    {
      var deletedCount := 0;
      ghost var keys: seq<Key> := [];
      var k := 0;
      assert pages[..0] == [];
      while true
        invariant k < |pages| && Valid()
        invariant DeletePassOf(ScannedItems(pages[..k])) == DeletePass(keys, None)
        invariant items == WithoutAll(old(items), keys) && deletedCount == |keys|
        invariant PagesUntilEnd(pages, 0) == PagesUntilEnd(pages, k)
        decreases |pages| - k
      {
        var page := pages[k];
        var lastEvaluatedKey := page.lastEvaluatedKey;
        var result;
        result, keys := DeletePage(page.items, deletedCount, old(items), ScannedItems(pages[..k]), keys);
        DeletePageStep(pages, k, keys, if result.Err? then Some(result.error) else None);
        DeleteOutcomeAt(pages, k, keys, if result.Err? then Some(result.error) else None);
        if result.Err? {
          return result;
        }
        deletedCount := result.value;
        if lastEvaluatedKey == None || |lastEvaluatedKey.value| == 0 {
          return Ok(deletedCount);
        }
        k := k + 1;
      }
    }

    /** DeleteAllItemsAsync as written: the same pass over the pages, but the
        loop condition reads the cursor's count, so a page answered with a
        null cursor ends the loop with a NullReferenceException after its
        items were deleted. */
    method DeleteAllItems(pages: seq<ScanPage>) returns (r: Result<nat, DeleteError>)
      requires Valid() && ScanEnds(pages)
      modifies this
      ensures Valid()
      ensures items == WithoutAll(old(items), DeletePassOf(ScannedItems(pages[..PagesUntilEnd(pages, 0)])).keys)
      ensures r == DeleteOutcomeAsWritten(pages)
    {
      var deletedCount := 0;
      ghost var keys: seq<Key> := [];
      var k := 0;
      assert pages[..0] == [];
      while true
        invariant k < |pages| && Valid()
        invariant DeletePassOf(ScannedItems(pages[..k])) == DeletePass(keys, None)
        invariant items == WithoutAll(old(items), keys) && deletedCount == |keys|
        invariant PagesUntilEnd(pages, 0) == PagesUntilEnd(pages, k)
        decreases |pages| - k
      {
        var page := pages[k];
        var lastEvaluatedKey := page.lastEvaluatedKey;
        var result;
        result, keys := DeletePage(page.items, deletedCount, old(items), ScannedItems(pages[..k]), keys);
        DeletePageStep(pages, k, keys, if result.Err? then Some(result.error) else None);
        DeleteOutcomeAt(pages, k, keys, if result.Err? then Some(result.error) else None);
        if result.Err? {
          return Err(ConversionFailed(result.error));
        }
        deletedCount := result.value;
        var continues := DeleteLoopContinuesAsWritten(lastEvaluatedKey);
        if continues.Err? {
          return Err(CursorFailed(continues.error));
        }
        if !continues.value {
          return Ok(deletedCount);
        }
        k := k + 1;
      }
    }
  }
}
