/** The LINQ and BCL sequence operations the access layer relies on:
    string.Join, AddRange (Flatten), DistinctBy / Distinct (first occurrence
    wins), Chunk, and the nested-foreach enumeration order (Cross, Cross3). */
module Sequences {

  // ---------------------------------------------------------------------------
  // Concatenation (List.AddRange in a loop)

  function Flatten<T>(xss: seq<seq<T>>): seq<T>
  {
    if |xss| == 0 then [] else xss[0] + Flatten(xss[1..])
  }

  lemma {:induction false} FlattenAppend<T>(a: seq<seq<T>>, b: seq<seq<T>>)
    ensures Flatten(a + b) == Flatten(a) + Flatten(b)
  {
    if |a| == 0 {
      assert a + b == b;
    } else {
      assert (a + b)[1..] == a[1..] + b;
      FlattenAppend(a[1..], b);
    }
  }

  lemma FlattenSnoc<T>(a: seq<seq<T>>, x: seq<T>)
    ensures Flatten(a + [x]) == Flatten(a) + x
  {
    FlattenAppend(a, [x]);
    assert Flatten([x]) == x + Flatten([]);
  }

  /** Extending a prefix of a sequence by its next element. */
  lemma PrefixSnoc<T>(before: seq<T>, xs: seq<T>, j: nat)
    requires j < |xs|
    ensures before + xs[..j + 1] == (before + xs[..j]) + [xs[j]]
  {
    assert xs[..j + 1] == xs[..j] + [xs[j]];
  }

  // ---------------------------------------------------------------------------
  // string.Join

  /** string.Join(sep, parts): the parts with sep between consecutive ones. */
  function Join(sep: string, parts: seq<string>): string
  {
    if |parts| == 0 then ""
    else if |parts| == 1 then parts[0]
    else parts[0] + sep + Join(sep, parts[1..])
  }

  /** When no part is empty, the join is empty exactly when there are no parts. */
  lemma JoinEmptyIff(sep: string, parts: seq<string>)
    requires forall i :: 0 <= i < |parts| ==> parts[i] != ""
    ensures Join(sep, parts) == "" <==> |parts| == 0
  {
    if |parts| > 1 {
      assert |Join(sep, parts)| >= |parts[0]| > 0;
    }
  }

  // ---------------------------------------------------------------------------
  // Enumerable.DistinctBy / Enumerable.Distinct

  /** The keys of all elements of xs. */
  function KeySet<T, K>(xs: seq<T>, key: T -> K): set<K>
  {
    set i | 0 <= i < |xs| :: key(xs[i])
  }

  predicate KeysDistinct<T, K(==)>(xs: seq<T>, key: T -> K)
  {
    forall i, j :: 0 <= i < j < |xs| ==> key(xs[i]) != key(xs[j])
  }

  /** The scan DistinctBy performs: keep an element iff its key was not seen before. */
  function DistinctByFrom<T, K(==)>(xs: seq<T>, key: T -> K, seen: set<K>): seq<T>
    decreases |xs|
  {
    if |xs| == 0 then []
    else if key(xs[0]) in seen then DistinctByFrom(xs[1..], key, seen)
    else [xs[0]] + DistinctByFrom(xs[1..], key, seen + {key(xs[0])})
  }

  /** Enumerable.DistinctBy: the first element of each key, in input order. */
  function DistinctBy<T, K(==)>(xs: seq<T>, key: T -> K): seq<T>
  {
    DistinctByFrom(xs, key, {})
  }

  /** Enumerable.Distinct on a projected list: the first occurrence of each value, in order. */
  function Distinct<T(==)>(xs: seq<T>): seq<T>
  {
    DistinctBy(xs, (x: T) => x)
  }

  /** Independent reference for DistinctBy: position i is kept iff no earlier
      position carries the same key. */
  predicate IsFirst<T, K(==)>(xs: seq<T>, key: T -> K, i: nat)
    requires i < |xs|
  {
    forall j :: 0 <= j < i ==> key(xs[j]) != key(xs[i])
  }

  function FirstOccurrences<T, K(==)>(xs: seq<T>, key: T -> K, n: nat): seq<T>
    requires n <= |xs|
  {
    if n == 0 then []
    else FirstOccurrences(xs, key, n - 1) + (if IsFirst(xs, key, n - 1) then [xs[n - 1]] else [])
  }

  lemma KeySetSnoc<T, K>(xs: seq<T>, key: T -> K, n: nat)
    requires n < |xs|
    ensures KeySet(xs[..n + 1], key) == KeySet(xs[..n], key) + {key(xs[n])}
  {
    var a, b := xs[..n + 1], xs[..n];
    forall k | k in KeySet(a, key) ensures k in KeySet(b, key) + {key(xs[n])} {
      var i :| 0 <= i < |a| && key(a[i]) == k;
      if i < n { assert b[i] == a[i]; }
    }
    forall k | k in KeySet(b, key) ensures k in KeySet(a, key) {
      var i :| 0 <= i < |b| && key(b[i]) == k;
      assert a[i] == b[i];
    }
    assert a[n] == xs[n];
  }

  lemma IsFirstIff<T, K>(xs: seq<T>, key: T -> K, n: nat)
    requires n < |xs|
    ensures IsFirst(xs, key, n) <==> key(xs[n]) !in KeySet(xs[..n], key)
  {
    if !IsFirst(xs, key, n) {
      var j :| 0 <= j < n && key(xs[j]) == key(xs[n]);
      assert xs[..n][j] == xs[j];
    }
    if key(xs[n]) in KeySet(xs[..n], key) {
      var j :| 0 <= j < n && key(xs[..n][j]) == key(xs[n]);
      assert xs[..n][j] == xs[j];
    }
  }

  lemma {:induction false} DistinctByFromSuffix<T, K>(xs: seq<T>, key: T -> K, n: nat)
    requires n <= |xs|
    ensures FirstOccurrences(xs, key, |xs|)
         == FirstOccurrences(xs, key, n) + DistinctByFrom(xs[n..], key, KeySet(xs[..n], key))
    decreases |xs| - n
  {
    if n == |xs| {
      assert xs[n..] == [];
    } else {
      var seen := KeySet(xs[..n], key);
      var rest := xs[n..];
      assert rest[0] == xs[n] && rest[1..] == xs[n + 1..];
      KeySetSnoc(xs, key, n);
      IsFirstIff(xs, key, n);
      DistinctByFromSuffix(xs, key, n + 1);
      if key(xs[n]) in seen {
        assert seen + {key(xs[n])} == seen;
      }
    }
  }

  /** The first element of its key in a prefix is the first one in the whole sequence. */
  lemma IsFirstOfPrefix<T, K>(xs: seq<T>, key: T -> K, m: nat, i: nat)
    requires i < m <= |xs| && IsFirst(xs[..m], key, i)
    ensures IsFirst(xs, key, i) && xs[..m][i] == xs[i]
  {
    assert forall j :: 0 <= j <= i ==> xs[..m][j] == xs[j];
  }

  /** Every element the first-occurrence reference keeps is the first one of its key. */
  lemma {:induction false} FirstOccurrencesAreFirst<T, K>(xs: seq<T>, key: T -> K, n: nat)
    requires n <= |xs|
    ensures forall i :: 0 <= i < |FirstOccurrences(xs, key, n)| ==>
              exists p :: 0 <= p < n && IsFirst(xs, key, p) && FirstOccurrences(xs, key, n)[i] == xs[p]
  {
    if n > 0 {
      FirstOccurrencesAreFirst(xs, key, n - 1);
      var a := FirstOccurrences(xs, key, n - 1);
      var r := FirstOccurrences(xs, key, n);
      forall i | 0 <= i < |r| ensures exists p :: 0 <= p < n && IsFirst(xs, key, p) && r[i] == xs[p] {
        if i < |a| {
          assert r[i] == a[i];
        } else {
          assert r[i] == xs[n - 1];
        }
      }
    } else {
      assert FirstOccurrences(xs, key, n) == [];
    }
  }

  /** DistinctBy agrees with the first-occurrence reference. */
  lemma DistinctByIsFirstOccurrences<T, K>(xs: seq<T>, key: T -> K)
    ensures DistinctBy(xs, key) == FirstOccurrences(xs, key, |xs|)
  {
    DistinctByFromSuffix(xs, key, 0);
    assert xs[0..] == xs;
    assert xs[..0] == [];
    assert KeySet(xs[..0], key) == {};
  }

  lemma KeySetCons<T, K>(x: T, xs: seq<T>, key: T -> K)
    ensures KeySet([x] + xs, key) == KeySet(xs, key) + {key(x)}
  {
    var r := [x] + xs;
    forall k | k in KeySet(r, key) ensures k in KeySet(xs, key) + {key(x)} {
      var i :| 0 <= i < |r| && key(r[i]) == k;
      if i > 0 { assert xs[i - 1] == r[i]; }
    }
    forall k | k in KeySet(xs, key) ensures k in KeySet(r, key) {
      var i :| 0 <= i < |xs| && key(xs[i]) == k;
      assert r[i + 1] == xs[i];
    }
    assert r[0] == x;
  }

  lemma {:induction false} DistinctByFromFresh<T, K>(xs: seq<T>, key: T -> K, seen: set<K>)
    ensures KeysDistinct(DistinctByFrom(xs, key, seen), key)
    ensures forall i :: 0 <= i < |DistinctByFrom(xs, key, seen)| ==>
              key(DistinctByFrom(xs, key, seen)[i]) !in seen
    decreases |xs|
  {
    if |xs| > 0 {
      var x := xs[0];
      if key(x) in seen {
        DistinctByFromFresh(xs[1..], key, seen);
      } else {
        var tail := DistinctByFrom(xs[1..], key, seen + {key(x)});
        DistinctByFromFresh(xs[1..], key, seen + {key(x)});
        var r := [x] + tail;
        assert DistinctByFrom(xs, key, seen) == r;
        forall i | 0 <= i < |r| ensures key(r[i]) !in seen {
          if i > 0 { assert r[i] == tail[i - 1]; }
        }
        forall i, j | 0 <= i < j < |r| ensures key(r[i]) != key(r[j]) {
          assert r[j] == tail[j - 1];
          if i > 0 { assert r[i] == tail[i - 1]; }
        }
      }
    }
  }

  lemma {:induction false} DistinctByFromKeys<T, K>(xs: seq<T>, key: T -> K, seen: set<K>)
    ensures KeySet(DistinctByFrom(xs, key, seen), key) == KeySet(xs, key) - seen
    ensures multiset(DistinctByFrom(xs, key, seen)) <= multiset(xs)
    decreases |xs|
  {
    if |xs| > 0 {
      var x := xs[0];
      assert xs == [x] + xs[1..];
      KeySetCons(x, xs[1..], key);
      if key(x) in seen {
        DistinctByFromKeys(xs[1..], key, seen);
      } else {
        var tail := DistinctByFrom(xs[1..], key, seen + {key(x)});
        DistinctByFromKeys(xs[1..], key, seen + {key(x)});
        KeySetCons(x, tail, key);
      }
    }
  }

  /** DistinctBy keeps exactly one element per key present in the input, and
      only elements of the input. */
  lemma DistinctByProps<T, K>(xs: seq<T>, key: T -> K)
    ensures KeysDistinct(DistinctBy(xs, key), key)
    ensures KeySet(DistinctBy(xs, key), key) == KeySet(xs, key)
    ensures multiset(DistinctBy(xs, key)) <= multiset(xs)
  {
    DistinctByFromFresh(xs, key, {});
    DistinctByFromKeys(xs, key, {});
  }

  lemma {:induction false} DistinctByFromOfDistinct<T, K>(xs: seq<T>, key: T -> K, seen: set<K>)
    requires KeysDistinct(xs, key)
    requires forall i :: 0 <= i < |xs| ==> key(xs[i]) !in seen
    ensures DistinctByFrom(xs, key, seen) == xs
    decreases |xs|
  {
    if |xs| > 0 {
      var s := seen + {key(xs[0])};
      forall i | 0 <= i < |xs[1..]| ensures key(xs[1..][i]) !in s {
        assert xs[1..][i] == xs[i + 1];
      }
      forall i, j | 0 <= i < j < |xs[1..]| ensures key(xs[1..][i]) != key(xs[1..][j]) {
        assert xs[1..][i] == xs[i + 1] && xs[1..][j] == xs[j + 1];
      }
      DistinctByFromOfDistinct(xs[1..], key, s);
    }
  }

  /** Deduplicating twice is deduplicating once. */
  lemma DistinctByIdempotent<T, K>(xs: seq<T>, key: T -> K)
    ensures DistinctBy(DistinctBy(xs, key), key) == DistinctBy(xs, key)
  {
    DistinctByProps(xs, key);
    DistinctByFromOfDistinct(DistinctBy(xs, key), key, {});
  }

  /** Distinct has no repeated value and exactly the values of its input. */
  lemma DistinctProps<T>(xs: seq<T>)
    ensures forall i, j :: 0 <= i < j < |Distinct(xs)| ==> Distinct(xs)[i] != Distinct(xs)[j]
    ensures forall x :: x in Distinct(xs) <==> x in xs
  {
    var id := (x: T) => x;
    var d := Distinct(xs);
    DistinctByProps(xs, id);
    forall x | x in xs ensures x in d {
      var i :| 0 <= i < |xs| && xs[i] == x;
      assert id(xs[i]) in KeySet(xs, id);
      var j :| 0 <= j < |d| && id(d[j]) == x;
    }
    forall x | x in d ensures x in xs {
      assert x in multiset(d);
    }
  }

  // ---------------------------------------------------------------------------
  // Enumerable.Chunk

  /** Enumerable.Chunk(size): consecutive slices of `size` elements, the last one shorter. */
  function Chunk<T>(xs: seq<T>, size: nat): seq<seq<T>>
    requires size > 0
    decreases |xs|
  {
    if |xs| == 0 then []
    else if |xs| <= size then [xs]
    else [xs[..size]] + Chunk(xs[size..], size)
  }

  /** ⌈n / size⌉, the number of chunks of n elements. */
  function CeilDiv(n: nat, size: nat): nat
    requires size > 0
    decreases n
  {
    if n == 0 then 0 else if n <= size then 1 else 1 + CeilDiv(n - size, size)
  }

  lemma {:induction false} CeilDivBounds(n: nat, size: nat)
    requires size > 0
    ensures n <= CeilDiv(n, size) * size
    ensures n > 0 ==> (CeilDiv(n, size) - 1) * size < n
    decreases n
  {
    if n > size {
      CeilDivBounds(n - size, size);
      var c := CeilDiv(n - size, size);
      assert (c + 1) * size == c * size + size;
    }
  }

  lemma {:induction false} ChunkFlatten<T>(xs: seq<T>, size: nat)
    requires size > 0
    ensures Flatten(Chunk(xs, size)) == xs
    decreases |xs|
  {
    if 0 < |xs| <= size {
      assert Flatten(Chunk(xs, size)) == xs + Flatten([]);
    } else if |xs| > size {
      ChunkFlatten(xs[size..], size);
      assert Chunk(xs, size)[1..] == Chunk(xs[size..], size);
      assert xs == xs[..size] + xs[size..];
    }
  }

  /** Chunk covers its input in order with non-empty chunks of at most `size`
      elements, all but the last exactly `size`, ⌈|xs|/size⌉ of them. */
  lemma {:induction false} ChunkProps<T>(xs: seq<T>, size: nat)
    requires size > 0
    ensures Flatten(Chunk(xs, size)) == xs
    ensures |Chunk(xs, size)| == CeilDiv(|xs|, size)
    ensures forall i :: 0 <= i < |Chunk(xs, size)| ==> 0 < |Chunk(xs, size)[i]| <= size
    ensures forall i :: 0 <= i < |Chunk(xs, size)| - 1 ==> |Chunk(xs, size)[i]| == size
    decreases |xs|
  {
    ChunkFlatten(xs, size);
    var c := Chunk(xs, size);
    if |xs| > size {
      var rest := Chunk(xs[size..], size);
      ChunkProps(xs[size..], size);
      assert c == [xs[..size]] + rest;
      forall i | 0 < i < |c| ensures c[i] == rest[i - 1] { }
    }
  }

  // ---------------------------------------------------------------------------
  // Nested foreach enumeration order

  /** The calls `foreach y in ys` makes for a fixed outer value x, in order. */
  function Row<A, B, C>(x: A, ys: seq<B>, f: (A, B) -> C): seq<C>
  {
    if |ys| == 0 then [] else Row(x, ys[..|ys| - 1], f) + [f(x, ys[|ys| - 1])]
  }

  /** The calls `foreach x in xs { foreach y in ys { f(x, y) } }` makes, in order. */
  function Cross<A, B, C>(xs: seq<A>, ys: seq<B>, f: (A, B) -> C): seq<C>
  {
    if |xs| == 0 then [] else Cross(xs[..|xs| - 1], ys, f) + Row(xs[|xs| - 1], ys, f)
  }

  /** The calls `foreach x { foreach y { foreach z { f(x, y, z) } } }` makes, in order. */
  function Line<A, B, D, C>(x: A, y: B, zs: seq<D>, f: (A, B, D) -> C): seq<C>
  {
    if |zs| == 0 then [] else Line(x, y, zs[..|zs| - 1], f) + [f(x, y, zs[|zs| - 1])]
  }

  function Plane<A, B, D, C>(x: A, ys: seq<B>, zs: seq<D>, f: (A, B, D) -> C): seq<C>
  {
    if |ys| == 0 then [] else Plane(x, ys[..|ys| - 1], zs, f) + Line(x, ys[|ys| - 1], zs, f)
  }

  function Cross3<A, B, D, C>(xs: seq<A>, ys: seq<B>, zs: seq<D>, f: (A, B, D) -> C): seq<C>
  {
    if |xs| == 0 then [] else Cross3(xs[..|xs| - 1], ys, zs, f) + Plane(xs[|xs| - 1], ys, zs, f)
  }

  lemma {:induction false} RowProps<A, B, C>(x: A, ys: seq<B>, f: (A, B) -> C)
    ensures |Row(x, ys, f)| == |ys|
    ensures forall j :: 0 <= j < |ys| ==> Row(x, ys, f)[j] == f(x, ys[j])
    decreases |ys|
  {
    if |ys| > 0 {
      var p := ys[..|ys| - 1];
      RowProps(x, p, f);
      forall j | 0 <= j < |ys| ensures Row(x, ys, f)[j] == f(x, ys[j]) {
        if j < |p| { assert p[j] == ys[j]; }
      }
    }
  }

  /** A double loop issues |xs| * |ys| calls. */
  lemma {:induction false} CrossLength<A, B, C>(xs: seq<A>, ys: seq<B>, f: (A, B) -> C)
    ensures |Cross(xs, ys, f)| == |xs| * |ys|
    decreases |xs|
  {
    if |xs| > 0 {
      var n := |xs| - 1;
      CrossLength(xs[..n], ys, f);
      RowProps(xs[n], ys, f);
      assert n * |ys| + |ys| == |xs| * |ys|;
    }
  }

  lemma {:induction false} LineLength<A, B, D, C>(x: A, y: B, zs: seq<D>, f: (A, B, D) -> C)
    ensures |Line(x, y, zs, f)| == |zs|
    decreases |zs|
  {
    if |zs| > 0 { LineLength(x, y, zs[..|zs| - 1], f); }
  }

  lemma {:induction false} PlaneLength<A, B, D, C>(x: A, ys: seq<B>, zs: seq<D>, f: (A, B, D) -> C)
    ensures |Plane(x, ys, zs, f)| == |ys| * |zs|
    decreases |ys|
  {
    if |ys| > 0 {
      PlaneLength(x, ys[..|ys| - 1], zs, f);
      LineLength(x, ys[|ys| - 1], zs, f);
      MulSucc(|ys| - 1, |zs|);
    }
  }

  /** A triple loop issues |xs| * |ys| * |zs| calls. */
  lemma {:induction false} Cross3Length<A, B, D, C>(xs: seq<A>, ys: seq<B>, zs: seq<D>, f: (A, B, D) -> C)
    ensures |Cross3(xs, ys, zs, f)| == |xs| * (|ys| * |zs|)
    decreases |xs|
  {
    if |xs| > 0 {
      var n := |xs| - 1;
      Cross3Length(xs[..n], ys, zs, f);
      PlaneLength(xs[n], ys, zs, f);
      MulSucc(n, |ys| * |zs|);
    }
  }

  lemma MulSucc(n: nat, m: nat)
    ensures n * m + m == (n + 1) * m
  {
  }

  /** xs.Select(f). */
  function Each<A, C>(xs: seq<A>, f: A -> C): (r: seq<C>)
    ensures |r| == |xs| && forall i :: 0 <= i < |xs| ==> r[i] == f(xs[i])
  {
    seq(|xs|, i requires 0 <= i < |xs| => f(xs[i]))
  }

  lemma EachAppend<A, C>(a: seq<A>, b: seq<A>, f: A -> C)
    ensures Each(a + b, f) == Each(a, f) + Each(b, f)
  {
    assert forall i :: 0 <= i < |a + b| ==> Each(a + b, f)[i] == (Each(a, f) + Each(b, f))[i];
  }

  /** The inner loop of a nested foreach is a Select over its list. */
  lemma RowIsEach<A, B, C>(x: A, ys: seq<B>, f: (A, B) -> C, g: B -> C)
    requires forall y :: g(y) == f(x, y)
    ensures Row(x, ys, f) == Each(ys, g)
  {
    RowProps(x, ys, f);
  }

  lemma {:induction false} LineIsRow<A, B, D, C>(x: A, y: B, zs: seq<D>, f: (A, B, D) -> C, g: (B, D) -> C)
    requires forall y', z :: g(y', z) == f(x, y', z)
    ensures Line(x, y, zs, f) == Row(y, zs, g)
    decreases |zs|
  {
    if |zs| > 0 {
      LineIsRow(x, y, zs[..|zs| - 1], f, g);
    }
  }

  /** The two inner loops of a triple foreach enumerate as a double one. */
  lemma {:induction false} PlaneIsCross<A, B, D, C>(x: A, ys: seq<B>, zs: seq<D>, f: (A, B, D) -> C, g: (B, D) -> C)
    requires forall y, z :: g(y, z) == f(x, y, z)
    ensures Plane(x, ys, zs, f) == Cross(ys, zs, g)
    decreases |ys|
  {
    if |ys| > 0 {
      PlaneIsCross(x, ys[..|ys| - 1], zs, f, g);
      LineIsRow(x, ys[|ys| - 1], zs, f, g);
    }
  }

  /** Concatenation is associative; called to rebracket one step at a time. */
  lemma AppendAssoc<T>(a: seq<T>, b: seq<T>, c: seq<T>)
    ensures (a + b) + c == a + (b + c)
  {
  }

  lemma {:induction false} CrossAppend<A, B, C>(a: seq<A>, b: seq<A>, ys: seq<B>, f: (A, B) -> C)
    ensures Cross(a + b, ys, f) == Cross(a, ys, f) + Cross(b, ys, f)
    decreases |b|
  {
    if |b| == 0 {
      assert a + b == a;
    } else {
      var n := |b| - 1;
      var b', x := b[..n], b[n];
      assert (a + b)[..|a + b| - 1] == a + b' && (a + b)[|a + b| - 1] == x;
      CrossAppend(a, b', ys, f);
      AppendAssoc(Cross(a, ys, f), Cross(b', ys, f), Row(x, ys, f));
    }
  }

  lemma {:induction false} Cross3Append<A, B, D, C>(a: seq<A>, b: seq<A>, ys: seq<B>, zs: seq<D>, f: (A, B, D) -> C)
    ensures Cross3(a + b, ys, zs, f) == Cross3(a, ys, zs, f) + Cross3(b, ys, zs, f)
    decreases |b|
  {
    if |b| == 0 {
      assert a + b == a;
    } else {
      var n := |b| - 1;
      var b', x := b[..n], b[n];
      assert (a + b)[..|a + b| - 1] == a + b' && (a + b)[|a + b| - 1] == x;
      Cross3Append(a, b', ys, zs, f);
      AppendAssoc(Cross3(a, ys, zs, f), Cross3(b', ys, zs, f), Plane(x, ys, zs, f));
    }
  }

  /** Each call of a double foreach is made on one element of each list. */
  lemma {:induction false} CrossMembers<A, B, C>(xs: seq<A>, ys: seq<B>, f: (A, B) -> C)
    ensures forall c :: c in Cross(xs, ys, f) ==> exists i, j :: 0 <= i < |xs| && 0 <= j < |ys| && c == f(xs[i], ys[j])
    decreases |xs|
  {
    if |xs| > 0 {
      var xs' := xs[..|xs| - 1];
      CrossMembers(xs', ys, f);
      RowProps(xs[|xs| - 1], ys, f);
      forall c | c in Cross(xs, ys, f)
        ensures exists i, j :: 0 <= i < |xs| && 0 <= j < |ys| && c == f(xs[i], ys[j])
      {
        if c in Cross(xs', ys, f) {
          var i, j :| 0 <= i < |xs'| && 0 <= j < |ys| && c == f(xs'[i], ys[j]);
          assert xs'[i] == xs[i];
        } else {
          var j :| 0 <= j < |ys| && Row(xs[|xs| - 1], ys, f)[j] == c;
        }
      }
    }
  }

  /** Each call of a triple foreach is made on one element of each list. */
  lemma {:induction false} Cross3Members<A, B, D, C>(xs: seq<A>, ys: seq<B>, zs: seq<D>, f: (A, B, D) -> C)
    ensures forall c :: c in Cross3(xs, ys, zs, f) ==>
      exists i, j, k :: 0 <= i < |xs| && 0 <= j < |ys| && 0 <= k < |zs| && c == f(xs[i], ys[j], zs[k])
    decreases |xs|
  {
    if |xs| > 0 {
      var xs' := xs[..|xs| - 1];
      var x := xs[|xs| - 1];
      var g := (y, z) => f(x, y, z);
      Cross3Members(xs', ys, zs, f);
      PlaneIsCross(x, ys, zs, f, g);
      CrossMembers(ys, zs, g);
      forall c | c in Cross3(xs, ys, zs, f)
        ensures exists i, j, k :: 0 <= i < |xs| && 0 <= j < |ys| && 0 <= k < |zs| && c == f(xs[i], ys[j], zs[k])
      {
        if c in Cross3(xs', ys, zs, f) {
          var i, j, k :| 0 <= i < |xs'| && 0 <= j < |ys| && 0 <= k < |zs| && c == f(xs'[i], ys[j], zs[k]);
          assert xs'[i] == xs[i];
        } else {
          assert c in Cross(ys, zs, g);
          var j, k :| 0 <= j < |ys| && 0 <= k < |zs| && c == g(ys[j], zs[k]);
          assert c == f(xs[|xs| - 1], ys[j], zs[k]);
        }
      }
    }
  }

  /** A run of consecutive elements of a key-distinct sequence is key-distinct. */
  lemma InfixKeysDistinct<T, K>(a: seq<T>, m: seq<T>, c: seq<T>, key: T -> K)
    requires KeysDistinct(a + m + c, key)
    ensures KeysDistinct(m, key)
  {
    var all := a + m + c;
    forall p, q | 0 <= p < q < |m| ensures key(m[p]) != key(m[q]) {
      assert all[|a| + p] == m[p] && all[|a| + q] == m[q];
    }
  }

  lemma {:induction false} FlattenPartKeysDistinct<T, K>(xss: seq<seq<T>>, i: nat, key: T -> K)
    requires i < |xss| && KeysDistinct(Flatten(xss), key)
    ensures KeysDistinct(xss[i], key)
  {
    var rest := Flatten(xss[1..]);
    if i == 0 {
      assert [] + xss[0] + rest == Flatten(xss);
      InfixKeysDistinct([], xss[0], rest, key);
    } else {
      assert xss[0] + rest + [] == Flatten(xss);
      InfixKeysDistinct(xss[0], rest, [], key);
      FlattenPartKeysDistinct(xss[1..], i - 1, key);
      assert xss[1..][i - 1] == xss[i];
    }
  }

  /** xs.Select(proj).Distinct(): no value twice, and exactly the values some
      element projects to. */
  lemma ProjectedDistinct<T, K>(xs: seq<T>, proj: T -> K)
    ensures forall i, j :: 0 <= i < j < |Distinct(Each(xs, proj))| ==> Distinct(Each(xs, proj))[i] != Distinct(Each(xs, proj))[j]
    ensures forall k :: k in Distinct(Each(xs, proj)) <==> exists x :: x in xs && proj(x) == k
  {
    var ks := Each(xs, proj);
    DistinctProps(ks);
    forall k ensures k in ks <==> exists x :: x in xs && proj(x) == k {
      if k in ks {
        var i :| 0 <= i < |ks| && ks[i] == k;
        assert xs[i] in xs;
      }
      if exists x :: x in xs && proj(x) == k {
        var x :| x in xs && proj(x) == k;
        var i :| 0 <= i < |xs| && xs[i] == x;
        assert ks[i] == k;
      }
    }
  }

  /** The double foreach makes the call on every pair. */
  lemma {:induction false} CrossContains<A, B, C>(xs: seq<A>, ys: seq<B>, f: (A, B) -> C, i: nat, j: nat)
    requires i < |xs| && j < |ys|
    ensures f(xs[i], ys[j]) in Cross(xs, ys, f)
    decreases |xs|
  {
    var n := |xs| - 1;
    if i < n {
      CrossContains(xs[..n], ys, f, i, j);
      assert xs[..n][i] == xs[i];
    } else {
      RowProps(xs[n], ys, f);
      assert Row(xs[n], ys, f)[j] == f(xs[i], ys[j]);
    }
  }

  /** The triple foreach makes the call on every triple. */
  lemma {:induction false} Cross3Contains<A, B, D, C>(xs: seq<A>, ys: seq<B>, zs: seq<D>, f: (A, B, D) -> C,
                                                     i: nat, j: nat, k: nat)
    requires i < |xs| && j < |ys| && k < |zs|
    ensures f(xs[i], ys[j], zs[k]) in Cross3(xs, ys, zs, f)
  {
    var x := xs[i];
    PlaneContains(x, ys, zs, f, j, k);
    Cross3Split(xs, ys, zs, f, i);
  }

  lemma {:induction false} Cross3Split<A, B, D, C>(xs: seq<A>, ys: seq<B>, zs: seq<D>, f: (A, B, D) -> C, i: nat)
    requires i < |xs|
    ensures Cross3(xs, ys, zs, f) == Cross3(xs[..i], ys, zs, f) + Plane(xs[i], ys, zs, f) + Cross3(xs[i + 1..], ys, zs, f)
  {
    assert xs == xs[..i] + [xs[i]] + xs[i + 1..];
    Cross3Append(xs[..i] + [xs[i]], xs[i + 1..], ys, zs, f);
    Cross3Append(xs[..i], [xs[i]], ys, zs, f);
    assert Cross3([xs[i]], ys, zs, f) == Plane(xs[i], ys, zs, f) by {
      assert [xs[i]][..0] == [];
    }
  }

  lemma PlaneContains<A, B, D, C>(x: A, ys: seq<B>, zs: seq<D>, f: (A, B, D) -> C, j: nat, k: nat)
    requires j < |ys| && k < |zs|
    ensures f(x, ys[j], zs[k]) in Plane(x, ys, zs, f)
  {
    var g := (y, z) => f(x, y, z);
    PlaneIsCross(x, ys, zs, f, g);
    CrossContains(ys, zs, g, j, k);
  }

  /** An element of the concatenation comes from one of the parts, and every
      element of every part is in it. */
  lemma {:induction false} FlattenMembers<T>(xss: seq<seq<T>>)
    ensures forall x :: x in Flatten(xss) <==> exists i :: 0 <= i < |xss| && x in xss[i]
  {
    if |xss| > 0 {
      FlattenMembers(xss[1..]);
      forall x ensures x in Flatten(xss) <==> exists i :: 0 <= i < |xss| && x in xss[i] {
        if exists i :: 0 <= i < |xss| && x in xss[i] {
          var i :| 0 <= i < |xss| && x in xss[i];
          if i > 0 {
            assert xss[1..][i - 1] == xss[i];
          }
        }
        if x in Flatten(xss[1..]) {
          var i :| 0 <= i < |xss[1..]| && x in xss[1..][i];
          assert xss[i + 1] == xss[1..][i];
        }
      }
    }
  }

  // ---------------------------------------------------------------------------
  // Enumerable.Where

  /** The elements of xs that satisfy p, in order. */
  function Where<T>(xs: seq<T>, p: T -> bool): seq<T>
  {
    if |xs| == 0 then [] else Where(xs[..|xs| - 1], p) + (if p(xs[|xs| - 1]) then [xs[|xs| - 1]] else [])
  }

  /** Where keeps exactly the elements that satisfy p, and no more of them than xs has. */
  lemma {:induction false} WhereProps<T>(xs: seq<T>, p: T -> bool)
    ensures |Where(xs, p)| <= |xs|
    ensures forall x :: x in Where(xs, p) <==> x in xs && p(x)
  {
    if |xs| > 0 {
      var init := xs[..|xs| - 1];
      WhereProps(init, p);
      assert xs == init + [xs[|xs| - 1]];
    }
  }

  lemma {:induction false} WhereAppend<T>(a: seq<T>, b: seq<T>, p: T -> bool)
    ensures Where(a + b, p) == Where(a, p) + Where(b, p)
    decreases |b|
  {
    if |b| == 0 {
      assert a + b == a;
    } else {
      var init := b[..|b| - 1];
      assert (a + b)[..|a + b| - 1] == a + init;
      WhereAppend(a, init, p);
    }
  }

  // ---------------------------------------------------------------------------
  // Four nested counting loops

  /** The number of iterations of `for (int i = 0; i < q; i++)`. */
  function Count(q: int): (n: nat)
    ensures q >= 0 ==> n == q
    ensures q < 0 ==> n == 0
  {
    if q < 0 then 0 else q
  }

  /** n blocks f(0), ..., f(n - 1), one after another. */
  function Rows<T>(n: nat, f: nat -> seq<T>): seq<T>
  {
    if n == 0 then [] else Rows(n - 1, f) + f(n - 1)
  }

  /** The elements `for d in 0..nd` appends, for fixed outer indices. */
  function Grid1<T>(i: nat, j: nat, k: nat, nd: nat, g: (nat, nat, nat, nat) -> T): (s: seq<T>)
    ensures |s| == nd
  {
    if nd == 0 then [] else Grid1(i, j, k, nd - 1, g) + [g(i, j, k, nd - 1)]
  }

  /** The blocks Grid1(i, j, k, nd, g) for k = 0, 1, ... */
  function Grid1s<T>(i: nat, j: nat, nd: nat, g: (nat, nat, nat, nat) -> T): nat -> seq<T>
  {
    (k: nat) => Grid1(i, j, k, nd, g)
  }

  function Grid2<T>(i: nat, j: nat, na: nat, nd: nat, g: (nat, nat, nat, nat) -> T): seq<T>
  {
    Rows(na, Grid1s(i, j, nd, g))
  }

  /** The blocks Grid2(i, j, na, nd, g) for j = 0, 1, ... */
  function Grid2s<T>(i: nat, na: nat, nd: nat, g: (nat, nat, nat, nat) -> T): nat -> seq<T>
  {
    (j: nat) => Grid2(i, j, na, nd, g)
  }

  function Grid3<T>(i: nat, ns: nat, na: nat, nd: nat, g: (nat, nat, nat, nat) -> T): seq<T>
  {
    Rows(ns, Grid2s(i, na, nd, g))
  }

  /** The blocks Grid3(i, ns, na, nd, g) for i = 0, 1, ... */
  function Grid3s<T>(ns: nat, na: nat, nd: nat, g: (nat, nat, nat, nat) -> T): nat -> seq<T>
  {
    (i: nat) => Grid3(i, ns, na, nd, g)
  }

  /** The elements `for i { for j { for k { for d { append g(i, j, k, d) } } } }`
      appends, in order. */
  function Grid4<T>(nf: nat, ns: nat, na: nat, nd: nat, g: (nat, nat, nat, nat) -> T): seq<T>
  {
    Rows(nf, Grid3s(ns, na, nd, g))
  }

  /** One more series block at the end of a family. */
  lemma Grid3Snoc<T>(i: nat, j: nat, na: nat, nd: nat, g: (nat, nat, nat, nat) -> T)
    ensures Grid3(i, j + 1, na, nd, g) == Grid3(i, j, na, nd, g) + Grid2(i, j, na, nd, g)
  {
  }

  /** One more family block at the end. */
  lemma Grid4Snoc<T>(i: nat, ns: nat, na: nat, nd: nat, g: (nat, nat, nat, nat) -> T)
    ensures Grid4(i + 1, ns, na, nd, g) == Grid4(i, ns, na, nd, g) + Grid3(i, ns, na, nd, g)
  {
  }

  /** a * b by repeated addition: the block arithmetic below stays linear. */
  function Mul(a: nat, b: nat): nat
  {
    if a == 0 then 0 else Mul(a - 1, b) + b
  }

  lemma {:induction false} MulIsProduct(a: nat, b: nat)
    ensures Mul(a, b) == a * b
  {
    if a > 0 {
      MulIsProduct(a - 1, b);
      MulSucc(a - 1, b);
    }
  }

  lemma {:induction false} MulMono(a: nat, b: nat, m: nat)
    requires a <= b
    ensures Mul(a, m) <= Mul(b, m)
  {
    if a < b {
      MulMono(a, b - 1, m);
    }
  }

  /** Blocks f(0), ..., f(n - 1) all have m elements. */
  predicate Uniform<T>(n: nat, f: nat -> seq<T>, m: nat)
  {
    forall i :: 0 <= i < n ==> |f(i)| == m
  }

  /** Position Mul(a, m) + r of n blocks of size m is position r of block a. */
  lemma {:induction false} RowsAt<T>(n: nat, f: nat -> seq<T>, m: nat, a: nat, r: nat)
    requires Uniform(n, f, m)
    requires a < n && r < m
    ensures |Rows(n, f)| == Mul(n, m)
    ensures Mul(a, m) + r < |Rows(n, f)| && Rows(n, f)[Mul(a, m) + r] == f(a)[r]
  {
    var k := n - 1;
    if a < k {
      RowsAt(k, f, m, a, r);
      MulMono(a + 1, k, m);
    } else {
      RowsLength(k, f, m);
    }
  }

  lemma {:induction false} RowsLength<T>(n: nat, f: nat -> seq<T>, m: nat)
    requires Uniform(n, f, m)
    ensures |Rows(n, f)| == Mul(n, m)
  {
    if n > 0 {
      RowsLength(n - 1, f, m);
    }
  }

  lemma {:induction false} Grid1At<T>(i: nat, j: nat, k: nat, nd: nat, g: (nat, nat, nat, nat) -> T)
    ensures forall d :: 0 <= d < nd ==> Grid1(i, j, k, nd, g)[d] == g(i, j, k, d)
  {
    if nd > 0 { Grid1At(i, j, k, nd - 1, g); }
  }

  lemma Grid2Length<T>(i: nat, j: nat, na: nat, nd: nat, g: (nat, nat, nat, nat) -> T)
    ensures |Grid2(i, j, na, nd, g)| == Mul(na, nd)
  {
    RowsLength(na, Grid1s(i, j, nd, g), nd);
  }

  lemma Grid2Uniform<T>(i: nat, ns: nat, na: nat, nd: nat, g: (nat, nat, nat, nat) -> T)
    ensures Uniform(ns, Grid2s(i, na, nd, g), Mul(na, nd))
  {
    forall j | 0 <= j < ns
      ensures |Grid2s(i, na, nd, g)(j)| == Mul(na, nd)
    {
      Grid2Length(i, j, na, nd, g);
    }
  }

  lemma Grid3Length<T>(i: nat, ns: nat, na: nat, nd: nat, g: (nat, nat, nat, nat) -> T)
    ensures |Grid3(i, ns, na, nd, g)| == Mul(ns, Mul(na, nd))
  {
    Grid2Uniform(i, ns, na, nd, g);
    RowsLength(ns, Grid2s(i, na, nd, g), Mul(na, nd));
  }

  lemma Grid3Uniform<T>(nf: nat, ns: nat, na: nat, nd: nat, g: (nat, nat, nat, nat) -> T)
    ensures Uniform(nf, Grid3s(ns, na, nd, g), Mul(ns, Mul(na, nd)))
  {
    forall i | 0 <= i < nf
      ensures |Grid3s(ns, na, nd, g)(i)| == Mul(ns, Mul(na, nd))
    {
      Grid3Length(i, ns, na, nd, g);
    }
  }

  lemma Grid4Length<T>(nf: nat, ns: nat, na: nat, nd: nat, g: (nat, nat, nat, nat) -> T)
    ensures |Grid4(nf, ns, na, nd, g)| == Mul(nf, Mul(ns, Mul(na, nd)))
  {
    Grid3Uniform(nf, ns, na, nd, g);
    RowsLength(nf, Grid3s(ns, na, nd, g), Mul(ns, Mul(na, nd)));
  }

  lemma Grid2At<T>(i: nat, j: nat, na: nat, nd: nat, g: (nat, nat, nat, nat) -> T, k: nat, d: nat)
    requires k < na && d < nd
    ensures |Grid2(i, j, na, nd, g)| == Mul(na, nd)
    ensures Mul(k, nd) + d < Mul(na, nd) && Grid2(i, j, na, nd, g)[Mul(k, nd) + d] == g(i, j, k, d)
  {
    Grid1At(i, j, k, nd, g);
    RowsAt(na, Grid1s(i, j, nd, g), nd, k, d);
  }

  /** Position Mul(j, m) + r of Grid3, m the size of a Grid2 block, is
      position r of block j. */
  lemma Grid3Block<T>(i: nat, ns: nat, na: nat, nd: nat, g: (nat, nat, nat, nat) -> T, j: nat, r: nat, m: nat)
    requires m == Mul(na, nd) && j < ns && r < m
    ensures Mul(j, m) + r < Mul(ns, m)
    ensures r < |Grid2(i, j, na, nd, g)| && Mul(j, m) + r < |Grid3(i, ns, na, nd, g)| &&
      Grid3(i, ns, na, nd, g)[Mul(j, m) + r] == Grid2(i, j, na, nd, g)[r]
  {
    Grid2Uniform(i, ns, na, nd, g);
    RowsAt(ns, Grid2s(i, na, nd, g), m, j, r);
  }

  /** Position Mul(i, m) + r of Grid4, m the size of a Grid3 block, is
      position r of block i. */
  lemma Grid4Block<T>(nf: nat, ns: nat, na: nat, nd: nat, g: (nat, nat, nat, nat) -> T, i: nat, r: nat, m: nat)
    requires m == Mul(ns, Mul(na, nd)) && i < nf && r < m
    ensures r < |Grid3(i, ns, na, nd, g)| && Mul(i, m) + r < |Grid4(nf, ns, na, nd, g)| &&
      Grid4(nf, ns, na, nd, g)[Mul(i, m) + r] == Grid3(i, ns, na, nd, g)[r]
  {
    Grid3Uniform(nf, ns, na, nd, g);
    RowsAt(nf, Grid3s(ns, na, nd, g), m, i, r);
  }

  lemma Grid3At<T>(i: nat, ns: nat, na: nat, nd: nat, g: (nat, nat, nat, nat) -> T, j: nat, k: nat, d: nat)
    requires j < ns && k < na && d < nd
    ensures Mul(j, Mul(na, nd)) + (Mul(k, nd) + d) < Mul(ns, Mul(na, nd))
    ensures Mul(j, Mul(na, nd)) + (Mul(k, nd) + d) < |Grid3(i, ns, na, nd, g)| &&
      Grid3(i, ns, na, nd, g)[Mul(j, Mul(na, nd)) + (Mul(k, nd) + d)] == g(i, j, k, d)
  {
    var m, r := Mul(na, nd), Mul(k, nd) + d;
    Grid2At(i, j, na, nd, g, k, d);
    Grid3Block(i, ns, na, nd, g, j, r, m);
  }

  lemma Grid4AtNested<T>(nf: nat, ns: nat, na: nat, nd: nat, g: (nat, nat, nat, nat) -> T, i: nat, j: nat, k: nat, d: nat)
    requires i < nf && j < ns && k < na && d < nd
    ensures Mul(i, Mul(ns, Mul(na, nd))) + (Mul(j, Mul(na, nd)) + (Mul(k, nd) + d)) < |Grid4(nf, ns, na, nd, g)| &&
      Grid4(nf, ns, na, nd, g)[Mul(i, Mul(ns, Mul(na, nd))) + (Mul(j, Mul(na, nd)) + (Mul(k, nd) + d))] == g(i, j, k, d)
  {
    var r := Mul(j, Mul(na, nd)) + (Mul(k, nd) + d);
    Grid3At(i, ns, na, nd, g, j, k, d);
    assert r < Mul(ns, Mul(na, nd)) && Grid3(i, ns, na, nd, g)[r] == g(i, j, k, d);
    Grid4Block(nf, ns, na, nd, g, i, r, Mul(ns, Mul(na, nd)));
  }

  lemma NestedIndex(i: nat, j: nat, k: nat, d: nat, ns: nat, na: nat, nd: nat)
    ensures ((i * ns + j) * na + k) * nd + d == Mul(i, Mul(ns, Mul(na, nd))) + (Mul(j, Mul(na, nd)) + (Mul(k, nd) + d))
  {
    MulIsProduct(na, nd);
    MulIsProduct(ns, Mul(na, nd));
    MulIsProduct(i, Mul(ns, Mul(na, nd)));
    MulIsProduct(j, Mul(na, nd));
    MulIsProduct(k, nd);
    calc {
      ((i * ns + j) * na + k) * nd + d;
      == (i * ns * na + j * na + k) * nd + d;
      == i * ns * na * nd + j * na * nd + k * nd + d;
      == i * (ns * (na * nd)) + (j * (na * nd) + (k * nd + d));
    }
  }

  /** Four nested loops append nf * (ns * (na * nd)) elements. */
  lemma Grid4Size<T>(nf: nat, ns: nat, na: nat, nd: nat, g: (nat, nat, nat, nat) -> T)
    ensures |Grid4(nf, ns, na, nd, g)| == nf * (ns * (na * nd))
  {
    Grid4Length(nf, ns, na, nd, g);
    MulIsProduct(na, nd);
    MulIsProduct(ns, Mul(na, nd));
    MulIsProduct(nf, Mul(ns, Mul(na, nd)));
  }

  /** g(i, j, k, d) is at position ((i * ns + j) * na + k) * nd + d. */
  lemma Grid4At<T>(nf: nat, ns: nat, na: nat, nd: nat, g: (nat, nat, nat, nat) -> T, i: nat, j: nat, k: nat, d: nat)
    requires i < nf && j < ns && k < na && d < nd
    ensures var p := ((i * ns + j) * na + k) * nd + d;
      0 <= p < |Grid4(nf, ns, na, nd, g)| && Grid4(nf, ns, na, nd, g)[p] == g(i, j, k, d)
  {
    NestedIndex(i, j, k, d, ns, na, nd);
    Grid4AtNested(nf, ns, na, nd, g, i, j, k, d);
  }

  /** Every element the loops append is g of indices in range. */
  lemma {:induction false} Grid4Members<T>(nf: nat, ns: nat, na: nat, nd: nat, g: (nat, nat, nat, nat) -> T)
    ensures forall x :: x in Grid4(nf, ns, na, nd, g) ==>
      exists i: nat, j: nat, k: nat, d: nat :: i < nf && j < ns && k < na && d < nd && x == g(i, j, k, d)
  {
    forall x | x in Grid4(nf, ns, na, nd, g)
      ensures exists i: nat, j: nat, k: nat, d: nat :: i < nf && j < ns && k < na && d < nd && x == g(i, j, k, d)
    {
      Grid4Index(nf, ns, na, nd, g, x);
    }
  }

  lemma {:induction false} Grid4Index<T>(nf: nat, ns: nat, na: nat, nd: nat, g: (nat, nat, nat, nat) -> T, x: T)
    requires x in Grid4(nf, ns, na, nd, g)
    ensures exists i: nat, j: nat, k: nat, d: nat :: i < nf && j < ns && k < na && d < nd && x == g(i, j, k, d)
  {
    var n := nf - 1;
    if x in Grid4(n, ns, na, nd, g) {
      Grid4Index(n, ns, na, nd, g, x);
    } else {
      Grid3Index(n, ns, na, nd, g, x);
    }
  }

  lemma {:induction false} Grid3Index<T>(i: nat, ns: nat, na: nat, nd: nat, g: (nat, nat, nat, nat) -> T, x: T)
    requires x in Grid3(i, ns, na, nd, g)
    ensures exists j: nat, k: nat, d: nat :: j < ns && k < na && d < nd && x == g(i, j, k, d)
  {
    var n := ns - 1;
    if x in Grid3(i, n, na, nd, g) {
      Grid3Index(i, n, na, nd, g, x);
    } else {
      Grid2Index(i, n, na, nd, g, x);
    }
  }

  lemma {:induction false} Grid2Index<T>(i: nat, j: nat, na: nat, nd: nat, g: (nat, nat, nat, nat) -> T, x: T)
    requires x in Grid2(i, j, na, nd, g)
    ensures exists k: nat, d: nat :: k < na && d < nd && x == g(i, j, k, d)
  {
    var n := na - 1;
    if x in Grid2(i, j, n, nd, g) {
      Grid2Index(i, j, n, nd, g, x);
    } else {
      Grid1At(i, j, n, nd, g);
      var d :| 0 <= d < nd && Grid1(i, j, n, nd, g)[d] == x;
    }
  }
}
