/** src/hashtable.c with its three slips mended: carp_ht_set looks for an entry with the same key, the
    first one of the chain included (lines 114 and 115), and carp_ht_del unlinks the entry it found
    wherever it is (lines 72 to 89).  Resizing and the load test stay as they are.  With that the
    table is a finite map, without any condition.
  */
module Mended {
  import opened Bytecode
  import opened Chains
  import opened Tables

  function Overwrite(s: Chain, key: string, v: int): Chain {
    if s == [] then [Pair(key, v)]
    else if s[0].key == key then [Pair(key, v)] + s[1..]
    else [s[0]] + Overwrite(s[1..], key, v)
  }

  function Unlink(s: Chain, key: string): Chain {
    if s == [] then s else if s[0].key == key then s[1..] else [s[0]] + Unlink(s[1..], key)
  }

  function Store(t: Table, key: string, v: int): Table {
    var b := Hash(key, |t|);
    t[b := Overwrite(t[b], key, v)]
  }

  function StoreAll(t: Table, s: Chain): Table {
    if s == [] then t else var e := s[|s| - 1]; Store(StoreAll(t, s[..|s| - 1]), e.key, e.value)
  }

  function Enlarge(t: Table): Table {
    StoreAll(Empty(2 * |t| + 1), Flatten(t))
  }

  function Do(t: Table, call: Call): Table {
    match call
    case SetCall(k, v) => Store(if Used(t) > 60 then Enlarge(t) else t, k, v)
    case DelCall(k) => var b := Hash(k, |t|); t[b := Unlink(t[b], k)]
  }

  function DoAll(t: Table, calls: seq<Call>): Table
    decreases |calls|
  {
    if calls == [] then t else DoAll(Do(t, calls[0]), calls[1..])
  }

  // ---------------------------------------------------------------- one chain

  predicate Distinct(s: Chain) {
    forall i, j :: 0 <= i < j < |s| ==> s[i].key != s[j].key
  }

  predicate HasKey(s: Chain, key: string) {
    exists i :: 0 <= i < |s| && s[i].key == key
  }

  lemma {:induction false} OverwriteIs(s: Chain, key: string, v: int)
    requires Distinct(s)
    ensures var r := Overwrite(s, key, v);
      && Distinct(r) && |s| <= |r| <= |s| + 1
      && (forall k :: HasKey(r, k) <==> k == key || HasKey(s, k))
      && (forall k :: Lookup(r, k) == if k == key then Some(v) else Lookup(s, k))
  {
    hide HasKey, Distinct;
    NoKeys();
    if s == [] {
      Cons(Pair(key, v), []);
      assert [Pair(key, v)] + [] == [Pair(key, v)];
    } else {
      Cons(s[0], s[1..]);
      assert s == [s[0]] + s[1..];
      if s[0].key == key {
        Cons(Pair(key, v), s[1..]);
      } else {
        OverwriteIs(s[1..], key, v);
        Cons(s[0], Overwrite(s[1..], key, v));
      }
    }
  }

  lemma {:induction false} UnlinkIs(s: Chain, key: string)
    requires Distinct(s)
    ensures var r := Unlink(s, key);
      && Distinct(r) && |r| <= |s|
      && (forall k :: HasKey(r, k) <==> k != key && HasKey(s, k))
      && (forall k :: Lookup(r, k) == if k == key then None else Lookup(s, k))
  {
    if s != [] {
      Cons(s[0], s[1..]);
      assert s == [s[0]] + s[1..];
      if s[0].key == key {
        LookupAbsent(s[1..], key);
      } else {
        UnlinkIs(s[1..], key);
        Cons(s[0], Unlink(s[1..], key));
      }
    }
  }

  lemma NoKeys()
    ensures Distinct([]) && forall k :: !HasKey([], k)
  {
  }

  lemma Cons(e: Pair, s: Chain)
    ensures forall k :: HasKey([e] + s, k) <==> k == e.key || HasKey(s, k)
    ensures forall k :: Lookup([e] + s, k) == if k == e.key then Some(e.value) else Lookup(s, k)
    ensures Distinct([e] + s) <==> Distinct(s) && !HasKey(s, e.key)
  {
    var t := [e] + s;
    assert forall i :: 0 <= i < |s| ==> t[i + 1] == s[i];
    assert t[1..] == s;
    forall k ensures HasKey(t, k) <==> k == e.key || HasKey(s, k) {
      if HasKey(s, k) {
        var i :| 0 <= i < |s| && s[i].key == k;
        assert t[i + 1].key == k;
      }
      if k == e.key { assert t[0].key == k; }
    }
    if Distinct(t) {
      forall i, j | 0 <= i < j < |s| ensures s[i].key != s[j].key {
        assert t[i + 1].key != t[j + 1].key;
      }
      forall i | 0 <= i < |s| ensures s[i].key != e.key {
        assert t[0].key != t[i + 1].key;
      }
    }
    if Distinct(s) && !HasKey(s, e.key) {
      forall i, j | 0 <= i < j < |t| ensures t[i].key != t[j].key {
        if i > 0 { assert s[i - 1].key != s[j - 1].key; } else { assert s[j - 1].key != e.key; }
      }
    }
  }

  // ---------------------------------------------------------------- one table

  // Every entry is in the bucket of its key, and no key occurs twice.
  ghost predicate WellPlaced(t: Table) {
    InBuckets(t) && forall b :: 0 <= b < |t| ==> Distinct(t[b])
  }

  lemma {:induction false} FlattenDistinct(t: Table, n: nat)
    requires WellPlaced(t) && n <= |t|
    ensures Distinct(Flatten(t[..n]))
  {
    if n > 0 {
      FlattenDistinct(t, n - 1);
      assert t[..n][..n - 1] == t[..n - 1];
      var a, c := Flatten(t[..n - 1]), t[n - 1];
      assert Distinct(c);
      forall i, j | 0 <= i < |a| && 0 <= j < |c|
        ensures a[i].key != c[j].key
      {
        FlattenLookup(t, n - 1, c[j].key);
        LookupAbsent(a, c[j].key);
      }
    }
  }

  ghost predicate Placed(t: Table, b: nat, s: Chain) {
    Distinct(s) && forall k :: HasKey(s, k) ==> Hash(k, |t|) == b
  }

  lemma Replace(t: Table, b: nat, s: Chain)
    requires WellPlaced(t) && b < |t| && Placed(t, b, s)
    ensures WellPlaced(t[b := s])
  {
    forall i | 0 <= i < |s| ensures Hash(s[i].key, |t|) == b {
      assert HasKey(s, s[i].key);
    }
  }

  lemma StoreIs(t: Table, key: string, v: int)
    requires WellPlaced(t)
    ensures WellPlaced(Store(t, key, v))
    ensures forall k :: Get(Store(t, key, v), k) == if k == key then Some(v) else Get(t, k)
    ensures Entries(Store(t, key, v)) <= Entries(t) + 1
  {
    var b := Hash(key, |t|);
    OverwriteIs(t[b], key, v);
    Replace(t, b, Overwrite(t[b], key, v));
    EntriesUpdate(t, b, Overwrite(t[b], key, v));
  }

  lemma {:induction false} StoreAllIs(t: Table, s: Chain)
    requires WellPlaced(t) && Distinct(s) && (forall k :: Get(t, k) == None)
    ensures var u := StoreAll(t, s);
      && |u| == |t| && WellPlaced(u) && (forall k :: Get(u, k) == Lookup(s, k))
      && Entries(u) <= Entries(t) + |s|
    decreases |s|
  {
    hide WellPlaced, Entries, Hash, Get;
    if s != [] {
      var r, e := s[..|s| - 1], s[|s| - 1];
      StoreAllIs(t, r);
      StoreIs(StoreAll(t, r), e.key, e.value);
      assert s == r + [e];
      LookupAbsent(r, e.key);
      forall k ensures Lookup(s, k) == if k == e.key then Some(e.value) else Lookup(r, k) {
        LookupAppend(r, [e], k);
      }
    }
  }

  /** The resize: the same answers, every entry in its new bucket, and no second resize on the way. */
  lemma EnlargeKeeps(t: Table)
    requires WellPlaced(t)
    ensures WellPlaced(Enlarge(t)) && |Enlarge(t)| == 2 * |t| + 1
    ensures forall k :: Get(Enlarge(t), k) == Get(t, k)
    ensures forall n :: 0 <= n <= |Flatten(t)| && Loaded(t) ==> Cool(StoreAll(Empty(2 * |t| + 1), Flatten(t)[..n]))
  {
    assert InBuckets(t);
    hide InBuckets;
    hide WellPlaced, Hash, StoreAll, Flatten, Get, Distinct, Agrees, Entries, Cool;
    var e, s := Empty(2 * |t| + 1), Flatten(t);
    FlattenDistinct(t, |t|);
    assert t[..|t|] == t;
    FreshAnswers(2 * |t| + 1);
    StoreAllIs(e, s);
    forall k ensures Lookup(s, k) == Get(t, k) {
      FlattenLookup(t, |t|, k);
    }
    forall n | 0 <= n <= |s| && Loaded(t) ensures Cool(StoreAll(e, s[..n])) {
      EnlargeStaysCool(t, n);
    }
  }

  predicate Cool(t: Table) {
    Loaded(t) && Used(t) <= 60
  }

  lemma FreshAnswers(size: nat)
    requires size > 0
    ensures WellPlaced(Empty(size)) && (forall k :: Get(Empty(size), k) == None) && Entries(Empty(size)) == 0
  {
    FreshTable(size);
    EmptyCounts(Empty(size));
  }

  lemma EnlargeStaysCool(t: Table, n: nat)
    requires WellPlaced(t) && Loaded(t) && n <= |Flatten(t)|
    ensures Cool(StoreAll(Empty(2 * |t| + 1), Flatten(t)[..n]))
  {
    hide WellPlaced, Hash, StoreAll, Flatten, Get, Entries, Used;
    var e, s := Empty(2 * |t| + 1), Flatten(t);
    FlattenDistinct(t, |t|);
    assert t[..|t|] == t;
    FreshAnswers(2 * |t| + 1);
    FlattenCounts(t);
    StoreAllIs(e, s[..n]);
    HotIff(StoreAll(e, s[..n]));
  }

  // ---------------------------------------------------------------- runs

  // A set, with the resize it may bring about.
  lemma SetIsRight(t: Table, key: string, v: int)
    requires WellPlaced(t)
    ensures WellPlaced(Do(t, SetCall(key, v)))
    ensures forall k :: Get(Do(t, SetCall(key, v)), k) == if k == key then Some(v) else Get(t, k)
  {
    hide Used, Enlarge, Store, WellPlaced, Get;
    EnlargeKeeps(t);
    StoreIs(if Used(t) > 60 then Enlarge(t) else t, key, v);
  }

  lemma DoAgrees(t: Table, m: map<string, int>, call: Call)
    requires WellPlaced(t) && Agrees(t, m)
    ensures WellPlaced(Do(t, call)) && Agrees(Do(t, call), DoMap(m, call))
  {
    hide Used, Enlarge, Store;
    match call {
      case SetCall(k, v) => SetIsRight(t, k, v);
      case DelCall(k) =>
        var b := Hash(k, |t|);
        UnlinkIs(t[b], k);
        forall x | HasKey(Unlink(t[b], k), x) ensures Hash(x, |t|) == b {}
        Replace(t, b, Unlink(t[b], k));
    }
  }

  /** Mended, a table that agrees with a finite map goes on doing so through every sequence of calls,
      and every entry stays in the bucket of its hash. */
  lemma {:induction false} MendedAgrees(t: Table, m: map<string, int>, calls: seq<Call>)
    requires WellPlaced(t) && Agrees(t, m)
    ensures WellPlaced(DoAll(t, calls)) && Agrees(DoAll(t, calls), DoAllMap(m, calls))
    decreases |calls|
  {
    hide WellPlaced, Agrees, Do, DoMap;
    if calls != [] {
      DoAgrees(t, m, calls[0]);
      MendedAgrees(Do(t, calls[0]), DoMap(m, calls[0]), calls[1..]);
    }
  }
}
