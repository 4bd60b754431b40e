/** The key-value table behind the DynamoDB client, as the repository sees it:
    the stored items in the order a scan returns them, each under a unique
    primary key; the pages a scan answers with; and what a query selects. */
module DynamoTable {
  import opened Wrappers
  import opened Models
  import opened DynamoItems

  // ---------------------------------------------------------------------------
  // Stored items and their keys

  /** Every stored item carries both key attributes, and no two share a key. */
  predicate KeysUnique(items: seq<Item>)
  {
    (forall i :: 0 <= i < |items| ==> KeyOf(items[i]).Ok?)
    && (forall i, j :: 0 <= i < j < |items| ==> KeyOf(items[i]) != KeyOf(items[j]))
  }

  /** GetItem: the item stored under a key, if any. */
  function Lookup(items: seq<Item>, key: Key): (r: Option<Item>)
    ensures r.Some? ==> r.value in items && KeyOf(r.value) == Ok(key)
    ensures r.None? <==> forall i :: 0 <= i < |items| ==> KeyOf(items[i]) != Ok(key)
  {
    if |items| == 0 then None
    else if KeyOf(items[0]) == Ok(key) then Some(items[0])
    else Lookup(items[1..], key)
  }

  /** PutItem: the item replaces the one stored under its key, in place, or is
      added after all others. */
  function Put(items: seq<Item>, item: Item): seq<Item>
    requires KeyOf(item).Ok?
  {
    if |items| == 0 then [item]
    else if KeyOf(items[0]) == KeyOf(item) then [item] + items[1..]
    else [items[0]] + Put(items[1..], item)
  }

  lemma KeysUniqueTail(items: seq<Item>)
    requires KeysUnique(items) && |items| > 0
    ensures KeysUnique(items[1..])
  {
    var rest := items[1..];
    forall i, j | 0 <= i < j < |rest| ensures KeyOf(rest[i]) != KeyOf(rest[j]) {
      assert rest[i] == items[i + 1] && rest[j] == items[j + 1];
    }
  }

  /** A put keeps the keys unique. */
  lemma {:induction false} PutKeysUnique(items: seq<Item>, item: Item)
    requires KeysUnique(items) && KeyOf(item).Ok?
    ensures KeysUnique(Put(items, item))
  {
    if |items| > 0 && KeyOf(items[0]) != KeyOf(item) {
      var rest := items[1..];
      KeysUniqueTail(items);
      PutKeysUnique(rest, item);
      var p := Put(rest, item);
      var r := Put(items, item);
      assert r == [items[0]] + p;
      forall x | x in p ensures KeyOf(x) != KeyOf(items[0]) {
        PutMembers(rest, item, x);
        if x != item {
          var i :| 0 <= i < |rest| && rest[i] == x;
          assert items[i + 1] == x;
        }
      }
      forall i, j | 0 <= i < j < |r| ensures KeyOf(r[i]) != KeyOf(r[j]) {
        if i == 0 {
          assert r[j] == p[j - 1];
        } else {
          assert r[i] == p[i - 1] && r[j] == p[j - 1];
        }
      }
    } else if |items| > 0 {
      var r := Put(items, item);
      forall i, j | 0 <= i < j < |r| ensures KeyOf(r[i]) != KeyOf(r[j]) {
        assert r[j] == items[j];
        if i > 0 { assert r[i] == items[i]; }
      }
    }
  }

  /** After a put, the key answers with the new item and every other key
      answers as before. */
  lemma {:induction false} PutLookup(items: seq<Item>, item: Item, k: Key)
    requires KeyOf(item).Ok?
    ensures Lookup(Put(items, item), k) == if k == KeyOf(item).value then Some(item) else Lookup(items, k)
  {
    if |items| > 0 && KeyOf(items[0]) != KeyOf(item) {
      PutLookup(items[1..], item, k);
    } else if |items| > 0 {
      assert Put(items, item)[1..] == items[1..];
    }
  }

  /** The table grows by one exactly when the key was not stored. */
  lemma {:induction false} PutLength(items: seq<Item>, item: Item)
    requires KeyOf(item).Ok?
    ensures |Put(items, item)| == |items| + (if Lookup(items, KeyOf(item).value).None? then 1 else 0)
  {
    if |items| > 0 && KeyOf(items[0]) != KeyOf(item) {
      PutLength(items[1..], item);
    }
  }

  /** A put adds the item and removes at most items that share its key. */
  lemma {:induction false} PutMembers(items: seq<Item>, item: Item, x: Item)
    requires KeyOf(item).Ok?
    ensures x in Put(items, item) ==> x == item || x in items
  {
    if |items| > 0 && KeyOf(items[0]) != KeyOf(item) {
      PutMembers(items[1..], item, x);
    }
  }

  /** BatchWriteItem's puts, applied in request order. */
  function PutAll(items: seq<Item>, batch: seq<Item>): seq<Item>
    requires forall i :: 0 <= i < |batch| ==> KeyOf(batch[i]).Ok?
  {
    if |batch| == 0 then items
    else Put(PutAll(items, batch[..|batch| - 1]), batch[|batch| - 1])
  }

  /** Two batches of puts one after the other are one batch of both. */
  lemma {:induction false} PutAllAppend(items: seq<Item>, a: seq<Item>, b: seq<Item>)
    requires forall i :: 0 <= i < |a| ==> KeyOf(a[i]).Ok?
    requires forall i :: 0 <= i < |b| ==> KeyOf(b[i]).Ok?
    ensures PutAll(items, a + b) == PutAll(PutAll(items, a), b)
    decreases |b|
  {
    if |b| == 0 {
      assert a + b == a;
    } else {
      var b' := b[..|b| - 1];
      assert (a + b)[..|a + b| - 1] == a + b';
      PutAllAppend(items, a, b');
    }
  }

  lemma {:induction false} PutAllKeysUnique(items: seq<Item>, batch: seq<Item>)
    requires KeysUnique(items)
    requires forall i :: 0 <= i < |batch| ==> KeyOf(batch[i]).Ok?
    ensures KeysUnique(PutAll(items, batch))
  {
    if |batch| > 0 {
      PutAllKeysUnique(items, batch[..|batch| - 1]);
      PutKeysUnique(PutAll(items, batch[..|batch| - 1]), batch[|batch| - 1]);
    }
  }

  /** After a batch of puts with distinct keys, each key answers with its item. */
  lemma {:induction false} PutAllLookup(items: seq<Item>, batch: seq<Item>, i: nat)
    requires KeysUnique(batch) && i < |batch|
    ensures Lookup(PutAll(items, batch), KeyOf(batch[i]).value) == Some(batch[i])
  {
    var init := batch[..|batch| - 1];
    assert KeysUnique(init) by {
      forall a, b | 0 <= a < b < |init| ensures KeyOf(init[a]) != KeyOf(init[b]) {
        assert init[a] == batch[a] && init[b] == batch[b];
      }
    }
    PutLookup(PutAll(items, init), batch[|batch| - 1], KeyOf(batch[i]).value);
    if i < |batch| - 1 {
      assert init[i] == batch[i];
      PutAllLookup(items, init, i);
    }
  }

  /** DeleteItem: every item stored under the key goes; the rest keep their order. */
  function Without(items: seq<Item>, key: Key): (r: seq<Item>)
    ensures forall x :: x in r <==> x in items && KeyOf(x) != Ok(key)
  {
    if |items| == 0 then []
    else if KeyOf(items[0]) == Ok(key) then Without(items[1..], key)
    else [items[0]] + Without(items[1..], key)
  }

  /** One delete per key, in order. */
  function WithoutAll(items: seq<Item>, keys: seq<Key>): (r: seq<Item>)
    ensures forall x :: x in r <==> x in items && forall k :: k in keys ==> KeyOf(x) != Ok(k)
  {
    if |keys| == 0 then items
    else Without(WithoutAll(items, keys[..|keys| - 1]), keys[|keys| - 1])
  }

  // ---------------------------------------------------------------------------
  // Queries

  /** One equality of a key condition or a filter: the attribute holds exactly
      this string. */
  datatype Eq = Eq(attribute: string, value: string)

  predicate HoldsEq(item: Item, e: Eq)
  {
    e.attribute in item && item[e.attribute] == Str(e.value)
  }

  predicate Holds(item: Item, eqs: seq<Eq>)
  {
    forall i :: 0 <= i < |eqs| ==> HoldsEq(item, eqs[i])
  }

  /** The conditions the queries use have at most two equalities. */
  lemma HoldsShort(item: Item, a: Eq, b: Eq)
    ensures Holds(item, [])
    ensures Holds(item, [a]) <==> HoldsEq(item, a)
    ensures Holds(item, [a, b]) <==> HoldsEq(item, a) && HoldsEq(item, b)
  {
    assert [a, b][0] == a && [a, b][1] == b;
  }

  /** The items on which every equality holds, in table order. */
  function Select(items: seq<Item>, eqs: seq<Eq>): (r: seq<Item>)
    ensures |r| <= |items|
    ensures forall x :: x in r <==> x in items && Holds(x, eqs)
  {
    if |items| == 0 then []
    else if Holds(items[0], eqs) then [items[0]] + Select(items[1..], eqs)
    else Select(items[1..], eqs)
  }

  /** The items one response page holds: a query or scan reads at most
      pageItems items before its filter is applied. */
  function Page(items: seq<Item>, pageItems: nat): (r: seq<Item>)
    ensures |r| <= pageItems && r <= items
    ensures |items| <= pageItems ==> r == items
  {
    if |items| <= pageItems then items else items[..pageItems]
  }

  /** Select(ConvertFromDynamoDBItem) materialised: the first item that does
      not convert aborts the whole list. */
  function ConvertAll(items: seq<Item>): Result<seq<ValorDynamoDB>, ConversionError>
  {
    MapResult(items, ConvertFromItemInvariant)
  }

  /** A query: the index it reads, the equalities of its key condition, and
      those of its filter, which applies after the page is read. */
  datatype Index = BaseTable | GsiBuscaFamilia | BuscarFamilia | BuscarAtributo | BuscarDataInicioVigencia

  datatype QueryRequest = QueryRequest(index: Index, keyCondition: seq<Eq>, filter: seq<Eq>)

  /** The items a query returns: the first page of key-condition matches, then filtered. */
  function QueryItems(items: seq<Item>, q: QueryRequest, pageItems: nat): seq<Item>
  {
    Select(Page(Select(items, q.keyCondition), pageItems), q.filter)
  }

  /** Every item a query returns is stored and satisfies both the key condition
      and the filter; when all key-condition matches fit on one page, every
      stored item satisfying both is returned. */
  lemma QueryItemsProps(items: seq<Item>, q: QueryRequest, pageItems: nat)
    ensures forall x :: x in QueryItems(items, q, pageItems) ==>
      x in items && Holds(x, q.keyCondition) && Holds(x, q.filter)
    ensures |Select(items, q.keyCondition)| <= pageItems ==>
      forall x :: x in items && Holds(x, q.keyCondition) && Holds(x, q.filter) ==> x in QueryItems(items, q, pageItems)
  {
    var page := Page(Select(items, q.keyCondition), pageItems);
    forall x | x in page ensures x in Select(items, q.keyCondition) {
      var i :| 0 <= i < |page| && page[i] == x;
      assert Select(items, q.keyCondition)[i] == x;
    }
  }

  // ---------------------------------------------------------------------------
  // Scan pages

  /** One Scan response: its items and its LastEvaluatedKey, which may be null (None). */
  datatype ScanPage = ScanPage(items: seq<Item>, lastEvaluatedKey: Option<Item>)

  /** The scan is finished: the cursor is null or empty. */
  predicate Exhausted(cursor: Option<Item>)
  {
    cursor.None? || |cursor.value| == 0
  }

  /** The backend's responses end with a finished scan. */
  predicate ScanEnds(pages: seq<ScanPage>)
  {
    |pages| > 0 && Exhausted(pages[|pages| - 1].lastEvaluatedKey)
  }

  /** The items of the given pages, in order. */
  function ScannedItems(pages: seq<ScanPage>): seq<Item>
  {
    if |pages| == 0 then [] else ScannedItems(pages[..|pages| - 1]) + pages[|pages| - 1].items
  }

  lemma ScannedItemsNext(pages: seq<ScanPage>, k: nat)
    requires k < |pages|
    ensures ScannedItems(pages[..k + 1]) == ScannedItems(pages[..k]) + pages[k].items
  {
    assert pages[..k + 1][..k] == pages[..k];
  }

  /** How many pages a scan loop reads that stops at the first finished page. */
  function PagesUntilEnd(pages: seq<ScanPage>, k: nat): (n: nat)
    requires ScanEnds(pages) && k < |pages|
    ensures k < n <= |pages|
    decreases |pages| - k
  {
    if Exhausted(pages[k].lastEvaluatedKey) then k + 1 else PagesUntilEnd(pages, k + 1)
  }

  /** The loop reads pages up to and including the first finished one. */
  lemma {:induction false} PagesUntilEndProps(pages: seq<ScanPage>, k: nat)
    requires ScanEnds(pages) && k < |pages|
    ensures Exhausted(pages[PagesUntilEnd(pages, k) - 1].lastEvaluatedKey)
    ensures forall j :: k <= j < PagesUntilEnd(pages, k) - 1 ==> !Exhausted(pages[j].lastEvaluatedKey)
    decreases |pages| - k
  {
    if !Exhausted(pages[k].lastEvaluatedKey) {
      PagesUntilEndProps(pages, k + 1);
    }
  }
}
