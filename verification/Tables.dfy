/** The hash table of src/hashtable.c as a value: one chain per bucket.  Setting, deleting and
    resizing do what the code does; the results say when the table agrees with a finite map.
  */
module Tables {
  import opened Bytecode
  import opened Chains

  const TWO_64 := 0x1_0000_0000_0000_0000

  // djb2 on unsigned 64-bit words, from the left.
  function RawHash(key: string): int {
    if key == [] then 5381
    else (RawHash(key[..|key| - 1]) * 33 + key[|key| - 1] as int) % TWO_64
  }

  function Hash(key: string, size: int): (h: int)
    requires size > 0
    ensures 0 <= h < size
  {
    RawHash(key) % size
  }

  type Table = t: seq<Chain> | |t| > 0 witness [[]]

  function Get(t: Table, key: string): Option<int> {
    Lookup(t[Hash(key, |t|)], key)
  }

  // Every entry is in the bucket of its key.
  ghost predicate InBuckets(t: Table) {
    forall b, i :: 0 <= b < |t| && 0 <= i < |t[b]| ==> Hash(t[b][i].key, |t|) == b
  }

  // What every run from carp_ht_init on keeps, also where it goes wrong.
  ghost predicate Shaped(t: Table) {
    InBuckets(t) && forall b :: 0 <= b < |t| ==> Tailed(t[b])
  }

  ghost predicate Agrees(t: Table, m: map<string, int>) {
    forall k :: Get(t, k) == if k in m then Some(m[k]) else None
  }

  // ---------------------------------------------------------------- load

  function Entries(t: seq<Chain>): nat {
    if t == [] then 0 else Entries(t[..|t| - 1]) + |t[|t| - 1]|
  }

  // carp_ht_used, before it is narrowed to a short.
  function Used(t: Table): int {
    Entries(t) * 100 / |t|
  }

  // The conversion of a long to a short.
  function ToShort(x: int): int {
    (x + 0x8000) % 0x1_0000 - 0x8000
  }

  predicate Loaded(t: Table) {
    100 * Entries(t) < 61 * |t| + 100
  }

  lemma Quotient(a: nat, n: nat, k: nat, bound: nat)
    requires n > 0 && bound == n * (k + 1)
    ensures a / n <= k <==> a < bound
  {
    var q := a / n;
    assert a == n * q + a % n;
    if q <= k {
      assert n * q <= n * k;
    } else {
      assert n * (k + 1) <= n * q;
    }
  }

  // Line 102 asks for a resize.
  lemma HotIff(t: Table)
    ensures Used(t) > 60 <==> 100 * Entries(t) >= 61 * |t|
  {
    Quotient(Entries(t) * 100, |t|, 60, 61 * |t|);
  }

  // The percentage of a table within its load fits a short.
  lemma UsedFitsShort(t: Table)
    requires Loaded(t)
    ensures 0 <= Used(t) <= 160
  {
    Quotient(Entries(t) * 100, |t|, 160, 161 * |t|);
  }

  lemma ShortIsUsed(t: Table)
    ensures Loaded(t) ==> ToShort(Used(t)) == Used(t)
  {
    hide Used, Loaded;
    if Loaded(t) { UsedFitsShort(t); }
  }

  lemma {:induction false} EntriesUpdate(t: seq<Chain>, b: nat, s: Chain)
    requires b < |t|
    ensures Entries(t[b := s]) == Entries(t) - |t[b]| + |s|
  {
    var n := |t| - 1;
    if b == n {
      assert t[b := s][..n] == t[..n];
    } else {
      assert t[b := s][..n] == t[..n][b := s];
      EntriesUpdate(t[..n], b, s);
    }
  }

  // ---------------------------------------------------------------- carp_ht_set without its resize

  function Put(t: Table, key: string, v: int): Table {
    var b := Hash(key, |t|);
    t[b := SetChain(t[b], key, v)]
  }

  lemma PutCounts(t: Table, key: string, v: int)
    ensures Entries(t) <= Entries(Put(t, key, v)) <= Entries(t) + 1
  {
    EntriesUpdate(t, Hash(key, |t|), SetChain(t[Hash(key, |t|)], key, v));
  }

  // Without a resize, setting a key agrees with a map exactly when its bucket fits.
  lemma PutIsRightIff(t: Table, key: string, v: int)
    requires InBuckets(t)
    ensures (forall k :: Get(Put(t, key, v), k) == if k == key then Some(v) else Get(t, k))
            <==> SetFits(t[Hash(key, |t|)], key, v)
  {
    var b := Hash(key, |t|);
    var s := SetChain(t[b], key, v);
    SetIsRightIff(t[b], key, v);
    if forall k :: Get(Put(t, key, v), k) == if k == key then Some(v) else Get(t, k) {
      forall k
        ensures Lookup(s, k) == if k == key then Some(v) else Lookup(t[b], k)
      {
        if Hash(k, |t|) == b {
          assert Get(Put(t, key, v), k) == Lookup(s, k);
        } else {
          ForeignKey(t, key, v, k);
        }
      }
    }
  }

  // Keys of other buckets are not found here, before or after.
  lemma ForeignKey(t: Table, key: string, v: int, k: string)
    requires InBuckets(t) && Hash(k, |t|) != Hash(key, |t|)
    ensures var b := Hash(key, |t|);
      Lookup(t[b], k) == None && Lookup(SetChain(t[b], key, v), k) == None
  {
    var b := Hash(key, |t|);
    LookupAbsent(t[b], k);
    if t[b] != [] {
      VictimIs(t[b], 0, key);
    }
    LookupAbsent(SetChain(t[b], key, v), k);
  }

  lemma PutKeepsShape(t: Table, key: string, v: int)
    requires Shaped(t)
    ensures Shaped(Put(t, key, v))
  {
    var b := Hash(key, |t|);
    var s := SetChain(t[b], key, v);
    SetKeepsTailed(t[b], key, v);
    if t[b] != [] { VictimIs(t[b], 0, key); }
    forall i | 0 <= i < |s| ensures Hash(s[i].key, |t|) == b {
      assert s[i].key == key || (i < |t[b]| && s[i].key == t[b][i].key);
    }
  }

  // ---------------------------------------------------------------- carp_ht_resize

  function Empty(size: nat): Table
    requires size > 0
  {
    seq(size, i => [])
  }

  // All entries, bucket by bucket.
  function Flatten(t: seq<Chain>): Chain {
    if t == [] then [] else Flatten(t[..|t| - 1]) + t[|t| - 1]
  }

  function PutAll(t: Table, s: Chain): Table {
    if s == [] then t else var u := PutAll(t, s[..|s| - 1]); Put(u, s[|s| - 1].key, s[|s| - 1].value)
  }

  function Resize(t: Table): Table {
    PutAll(Empty(2 * |t| + 1), Flatten(t))
  }

  // carp_ht_set
  function Set(t: Table, key: string, v: int): Table {
    Put(if Used(t) > 60 then Resize(t) else t, key, v)
  }

  // ---------------------------------------------------------------- the load argument

  lemma {:induction false} FlattenCounts(t: seq<Chain>)
    ensures |Flatten(t)| == Entries(t)
  {
    if t != [] {
      FlattenCounts(t[..|t| - 1]);
    }
  }

  lemma {:induction false} EmptyCounts(t: seq<Chain>)
    requires forall b :: 0 <= b < |t| ==> t[b] == []
    ensures Entries(t) == 0
  {
    if t != [] {
      EmptyCounts(t[..|t| - 1]);
    }
  }

  lemma {:induction false} PutAllCounts(t: Table, s: Chain)
    ensures |PutAll(t, s)| == |t|
    ensures Entries(PutAll(t, s)) <= Entries(t) + |s|
  {
    if s != [] {
      PutAllCounts(t, s[..|s| - 1]);
      var u := PutAll(t, s[..|s| - 1]);
      PutCounts(u, s[|s| - 1].key, s[|s| - 1].value);
    }
  }

  /** While a table within its load is being resized, the new table never gets hot: the sets made on
      the way do not resize again. */
  lemma ResizeStaysCool(t: Table, n: nat)
    requires Loaded(t) && n <= |Flatten(t)|
    ensures var u := PutAll(Empty(2 * |t| + 1), Flatten(t)[..n]);
      |u| == 2 * |t| + 1 && Loaded(u) && Used(u) <= 60
  {
    hide Used;
    var e := Empty(2 * |t| + 1);
    EmptyCounts(e);
    FlattenCounts(t);
    PutAllCounts(e, Flatten(t)[..n]);
    HotIff(PutAll(e, Flatten(t)[..n]));
  }

  lemma {:induction false} FlattenPrefix(t: seq<Chain>, i: nat, j: nat)
    requires i < |t| && j <= |t[i]|
    ensures |Flatten(t[..i])| + j <= |Flatten(t)|
    ensures Flatten(t)[..|Flatten(t[..i])| + j] == Flatten(t[..i]) + t[i][..j]
    decreases |t|
  {
    var n := |t| - 1;
    if i < n {
      FlattenPrefix(t[..n], i, j);
      assert t[..n][..i] == t[..i];
    }
  }

  // The next entry goes into a table that is still cool.
  lemma NextIsPut(t: Table, i: nat, j: nat)
    requires Loaded(t) && i < |t| && j < |t[i]|
    ensures var s, e := Flatten(t[..i]) + t[i][..j], Empty(2 * |t| + 1);
      && Loaded(PutAll(e, s)) && Used(PutAll(e, s)) <= 60
      && PutAll(e, Flatten(t[..i]) + t[i][..j + 1]) == Put(PutAll(e, s), t[i][j].key, t[i][j].value)
  {
    hide Used, Loaded, Flatten, Put, Hash;
    FlattenPrefix(t, i, j);
    ResizeStaysCool(t, |Flatten(t[..i])| + j);
    var s, s' := Flatten(t[..i]) + t[i][..j], Flatten(t[..i]) + t[i][..j + 1];
    assert s'[..|s'| - 1] == s && s'[|s'| - 1] == t[i][j];
  }

  lemma NextSet(t: Table, i: nat, j: nat)
    requires Loaded(t) && i < |t| && j < |t[i]|
    ensures var s, e := Flatten(t[..i]) + t[i][..j], Empty(2 * |t| + 1);
      && Loaded(PutAll(e, s)) && Used(PutAll(e, s)) <= 60
      && PutAll(e, Flatten(t[..i]) + t[i][..j + 1]) == Set(PutAll(e, s), t[i][j].key, t[i][j].value)
  {
    hide Used, Loaded, Flatten, Put, Hash, PutAll;
    NextIsPut(t, i, j);
  }

  // The load bound is kept by every set, as written.
  lemma SetKeepsLoad(t: Table, key: string, v: int)
    requires Loaded(t)
    ensures Loaded(Set(t, key, v))
  {
    hide Used;
    var u := if Used(t) > 60 then Resize(t) else t;
    if Used(t) > 60 {
      ResizeStaysCool(t, |Flatten(t)|);
      assert Flatten(t)[..|Flatten(t)|] == Flatten(t);
    }
    HotIff(u);
    PutCounts(u, key, v);
  }

  // ---------------------------------------------------------------- what a resize keeps

  // The entries of s that belong into bucket b of a table of the given size, in order.
  function Arrivals(s: Chain, size: int, b: int): Chain
    requires size > 0
  {
    if s == [] then []
    else
      var r, e := Arrivals(s[..|s| - 1], size, b), s[|s| - 1];
      if Hash(e.key, size) == b then r + [e] else r
  }

  function SetEach(s: Chain): Chain {
    if s == [] then [] else var e := s[|s| - 1]; SetChain(SetEach(s[..|s| - 1]), e.key, e.value)
  }

  lemma {:induction false} BucketOf(size: nat, s: Chain, b: nat)
    requires b < size
    ensures |PutAll(Empty(size), s)| == size
    ensures PutAll(Empty(size), s)[b] == SetEach(Arrivals(s, size, b))
    decreases |s|
  {
    PutAllCounts(Empty(size), s);
    if s != [] {
      var r, e := s[..|s| - 1], s[|s| - 1];
      BucketOf(size, r, b);
      if Hash(e.key, size) == b {
        assert (Arrivals(r, size, b) + [e])[..|Arrivals(r, size, b)|] == Arrivals(r, size, b);
      }
    }
  }

  // Entries with the same key stand together.
  predicate Grouped(s: Chain) {
    s == []
    || (var n := |s| - 1;
        Grouped(s[..n]) && (n > 0 && Lookup(s[..n], s[n].key).Some? ==> s[n - 1].key == s[n].key))
  }

  // If from the second arrival on all keys are the same, they are all stored.
  lemma {:induction false} AllArrive(s: Chain)
    requires Tailed(s)
    ensures SetEach(s) == s
    decreases |s|
  {
    if s != [] {
      var n := |s| - 1;
      AllArrive(s[..n]);
      assert s == s[..n] + [s[n]];
      if n > 0 { VictimIs(s[..n], 0, s[n].key); }
    }
  }

  // If not, some key is not stored, and a third one never will be.
  lemma {:induction false} OneIsLost(s: Chain) returns (key: string)
    requires Grouped(s) && !Tailed(s)
    ensures Lookup(s, key).Some? && Lookup(SetEach(s), key) == None && |SetEach(s)| >= 2
    decreases |s|
  {
    var n := |s| - 1;
    var r, e := s[..n], s[n];
    assert s == r + [e];
    if Tailed(r) {
      key := e.key;
      AllArrive(r);
      assert SetEach(s) == SetChain(r, key, e.value);
      LookupAbsent(r, key);
      StaysAbsent(r, key, e.value, key);
      VictimIs(r, 0, key);
      LookupAppend(r, [e], key);
    } else {
      key := OneIsLost(r);
      StaysAbsent(SetEach(r), e.key, e.value, key);
      VictimIs(SetEach(r), 0, e.key);
      LookupAppend(r, [e], key);
    }
  }

  lemma {:induction false} ArrivalsLookup(s: Chain, size: int, key: string)
    requires size > 0
    ensures Lookup(Arrivals(s, size, Hash(key, size)), key) == Lookup(s, key)
    decreases |s|
  {
    if s != [] {
      var r, e := s[..|s| - 1], s[|s| - 1];
      var b := Hash(key, size);
      ArrivalsLookup(r, size, key);
      assert s == r + [e];
      LookupAppend(r, [e], key);
      LookupAppend(Arrivals(r, size, b), [e], key);
    }
  }

  lemma {:induction false} ArrivalsGrouped(s: Chain, size: int, b: int)
    requires size > 0 && Grouped(s)
    ensures var r := Arrivals(s, size, b);
      && Grouped(r) && (forall i :: 0 <= i < |r| ==> Hash(r[i].key, size) == b)
      && (forall k :: Lookup(r, k).Some? ==> Lookup(s, k).Some?)
      && (s != [] && Hash(s[|s| - 1].key, size) == b ==> r != [] && r[|r| - 1] == s[|s| - 1])
    decreases |s|
  {
    hide Hash;
    if s != [] {
      var n := |s| - 1;
      var q, e := s[..n], s[n];
      ArrivalsGrouped(q, size, b);
      var a := Arrivals(q, size, b);
      assert s == q + [e] && (a + [e])[..|a|] == a;
      forall k
        ensures Lookup(s, k) == if Lookup(q, k).Some? then Lookup(q, k) else Lookup([e], k)
        ensures Lookup(a + [e], k) == if Lookup(a, k).Some? then Lookup(a, k) else Lookup([e], k)
      {
        LookupAppend(q, [e], k);
        LookupAppend(a, [e], k);
      }
    }
  }

  lemma {:induction false} FlattenLookup(t: Table, n: nat, key: string)
    requires InBuckets(t) && n <= |t|
    ensures Lookup(Flatten(t[..n]), key) == if Hash(key, |t|) < n then Get(t, key) else None
  {
    if n > 0 {
      FlattenLookup(t, n - 1, key);
      assert t[..n][..n - 1] == t[..n - 1];
      LookupAppend(Flatten(t[..n - 1]), t[n - 1], key);
      if Hash(key, |t|) != n - 1 {
        LookupAbsent(t[n - 1], key);
      }
    }
  }

  lemma {:induction false} TailedGrouped(s: Chain)
    requires Tailed(s)
    ensures Grouped(s)
    decreases |s|
  {
    if s != [] {
      var n := |s| - 1;
      TailedGrouped(s[..n]);
      LookupAbsent(s[..n], s[n].key);
    }
  }

  lemma {:induction false} GroupedAppend(a: Chain, c: Chain)
    requires Grouped(a) && Grouped(c) && forall i :: 0 <= i < |c| ==> Lookup(a, c[i].key).None?
    ensures Grouped(a + c)
    decreases |c|
  {
    hide Lookup;
    if c == [] {
      assert a + c == a;
    } else {
      var n := |c| - 1;
      GroupedAppend(a, c[..n]);
      var s := a + c;
      assert s[..|s| - 1] == a + c[..n] && s[|s| - 1] == c[n];
      LookupAppend(a, c[..n], c[n].key);
      EmptyLookup(c[n].key);
      if n > 0 { assert s[|s| - 2] == c[n - 1]; }
    }
  }

  lemma EmptyLookup(key: string)
    ensures Lookup([], key) == None
  {
  }

  lemma {:induction false} FlattenGrouped(t: Table, n: nat)
    requires Shaped(t) && n <= |t|
    ensures Grouped(Flatten(t[..n]))
  {
    hide Tailed, Hash, Lookup;
    if n > 0 {
      var a, c := Flatten(t[..n - 1]), t[n - 1];
      FlattenGrouped(t, n - 1);
      assert t[..n][..n - 1] == t[..n - 1];
      TailedGrouped(c);
      forall i | 0 <= i < |c| ensures Lookup(a, c[i].key).None? {
        FlattenLookup(t, n - 1, c[i].key);
      }
      GroupedAppend(a, c);
    }
  }

  // The entries due in bucket b of the new table.
  function Due(t: Table, b: int): Chain {
    Arrivals(Flatten(t), 2 * |t| + 1, b)
  }

  // What a caller could look at before the resize: the entries due in a bucket have at most two keys
  // (and if the first two have the same, one).
  ghost predicate Roomy(t: Table) {
    forall b :: 0 <= b < 2 * |t| + 1 ==> Tailed(Due(t, b))
  }

  lemma ResizedBucket(t: Table, b: nat)
    requires Shaped(t) && b < 2 * |t| + 1
    ensures |Resize(t)| == 2 * |t| + 1 && Resize(t)[b] == SetEach(Due(t, b)) && Grouped(Due(t, b))
    ensures forall i :: 0 <= i < |Due(t, b)| ==> Hash(Due(t, b)[i].key, 2 * |t| + 1) == b
  {
    hide Hash, Arrivals, Flatten, SetEach, PutAll, Grouped;
    BucketOf(2 * |t| + 1, Flatten(t), b);
    FlattenGrouped(t, |t|);
    assert t[..|t|] == t;
    ArrivalsGrouped(Flatten(t), 2 * |t| + 1, b);
  }

  lemma SameAnswers(t: Table, key: string)
    requires InBuckets(t)
    ensures Lookup(Due(t, Hash(key, 2 * |t| + 1)), key) == Get(t, key)
  {
    ArrivalsLookup(Flatten(t), 2 * |t| + 1, key);
    FlattenLookup(t, |t|, key);
    assert t[..|t|] == t;
  }

  lemma {:induction false} PutAllKeepsShape(t: Table, s: Chain)
    requires Shaped(t)
    ensures Shaped(PutAll(t, s))
    decreases |s|
  {
    hide Shaped, Put;
    if s != [] {
      PutAllKeepsShape(t, s[..|s| - 1]);
      PutKeepsShape(PutAll(t, s[..|s| - 1]), s[|s| - 1].key, s[|s| - 1].value);
    }
  }

  lemma ResizeKeepsShape(t: Table)
    ensures Shaped(Resize(t))
  {
    PutAllKeepsShape(Empty(2 * |t| + 1), Flatten(t));
  }

  lemma ResizeKeeps(t: Table)
    requires Shaped(t) && Roomy(t)
    ensures forall k :: Get(Resize(t), k) == Get(t, k)
  {
    hide Resize, Due, SetEach, Hash, Tailed, Lookup, Shaped, Grouped;
    var u, n := Resize(t), 2 * |t| + 1;
    ResizedBucket(t, 0);
    ShapedInBuckets(t);
    forall k ensures Get(u, k) == Get(t, k) {
      var b := Hash(k, n);
      ResizedBucket(t, b);
      AllArrive(Due(t, b));
      SameAnswers(t, k);
    }
  }

  /** As written, a resize gives the same answers as before exactly when the entries due in any one
      bucket of the new table all have the same key, the first of them aside. */
  lemma ResizeKeepsIff(t: Table)
    requires Shaped(t)
    ensures (forall k :: Get(Resize(t), k) == Get(t, k)) <==> Roomy(t)
  {
    hide Resize, Due, Hash, Shaped, Tailed;
    if Roomy(t) {
      ResizeKeeps(t);
    } else {
      var key := LostKey(t);
    }
  }

  // A key that such a resize loses.
  lemma LostKey(t: Table) returns (key: string)
    requires Shaped(t) && !Roomy(t)
    ensures Get(t, key).Some? && Get(Resize(t), key) == None
    ensures |Resize(t)[Hash(key, |Resize(t)|)]| >= 2
  {
    hide Resize, Due, Hash, SetEach, Tailed, Grouped, Lookup;
    var n := 2 * |t| + 1;
    var b :| 0 <= b < n && !Tailed(Due(t, b));
    ResizedBucket(t, b);
    key := OneIsLost(Due(t, b));
    KeyIsDue(Due(t, b), n, b, key);
    SameAnswers(t, key);
  }

  lemma KeyIsDue(s: Chain, size: int, b: int, key: string)
    requires size > 0 && (forall i :: 0 <= i < |s| ==> Hash(s[i].key, size) == b) && Lookup(s, key).Some?
    ensures Hash(key, size) == b
  {
    LookupAbsent(s, key);
  }

  // ---------------------------------------------------------------- runs

  datatype Call = SetCall(key: string, value: int) | DelCall(key: string)

  function Del(t: Table, key: string): Table {
    var b := Hash(key, |t|);
    t[b := DelChain(t[b], key)]
  }

  function Do(t: Table, call: Call): Table {
    match call
    case SetCall(k, v) => Set(t, k, v)
    case DelCall(k) => Del(t, k)
  }

  function DoMap(m: map<string, int>, call: Call): map<string, int> {
    match call
    case SetCall(k, v) => m[k := v]
    case DelCall(k) => m - {k}
  }

  /** A call the code gets right.  Setting: a resize, should it come to that, loses nothing, and the
      bucket fits.  Deleting: the key is absent, or first in its bucket and not there again. */
  ghost predicate Fits(t: Table, call: Call) {
    match call
    case SetCall(k, v) =>
      && (Used(t) > 60 ==> Roomy(t))
      && (var u := if Used(t) > 60 then Resize(t) else t; SetFits(u[Hash(k, |u|)], k, v))
    case DelCall(k) =>
      var s := t[Hash(k, |t|)];
      Lookup(s, k).None? || (s[0].key == k && Lookup(s[1..], k).None?)
  }

  // The answers after a set are those of the updated map.
  ghost predicate SetAnswers(t: Table, key: string, v: int) {
    forall k :: Get(Set(t, key, v), k) == if k == key then Some(v) else Get(t, k)
  }

  ghost predicate DelAnswers(t: Table, key: string) {
    forall k :: Get(Del(t, key), k) == if k == key then None else Get(t, k)
  }

  // A key lost by the resize is not brought back by the set that asked for the resize.
  lemma LostForGood(t: Table, key: string, v: int)
    requires Shaped(t) && Used(t) > 60 && !Roomy(t)
    ensures !SetAnswers(t, key, v)
  {
    hide Used, Resize, Roomy, Shaped, Hash, SetChain;
    var k := LostKey(t);
    var u := Resize(t);
    StaysAbsent(u[Hash(k, |u|)], key, v, k);
    assert Get(Set(t, key, v), k) == None;
  }

  /** carp_ht_set is right exactly when the call fits: for new keys and old, new values and old, with
      a resize and without. */
  lemma SetIsRightIffFits(t: Table, key: string, v: int)
    requires Shaped(t)
    ensures SetAnswers(t, key, v) <==> Fits(t, SetCall(key, v))
  {
    hide Used, Resize, Roomy, Shaped, Hash, SetChain, SetFits;
    if Used(t) > 60 && !Roomy(t) {
      LostForGood(t, key, v);
    } else {
      var u := if Used(t) > 60 then Resize(t) else t;
      if Used(t) > 60 {
        ResizeKeeps(t);
        ResizeKeepsShape(t);
      }
      ShapedInBuckets(u);
      PutIsRightIff(u, key, v);
      assert forall k :: Get(Put(u, key, v), k) == Get(Set(t, key, v), k);
      assert forall k :: Get(u, k) == Get(t, k);
    }
  }

  lemma ShapedInBuckets(t: Table)
    requires Shaped(t)
    ensures InBuckets(t)
  {
  }

  // Keys of other buckets are not touched by a deletion.
  lemma DelElsewhere(t: Table, key: string, k: string)
    requires InBuckets(t) && Hash(k, |t|) != Hash(key, |t|)
    ensures var s := t[Hash(key, |t|)];
      Lookup(s, k) == None && Lookup(DelChain(s, key), k) == None
  {
    var s := t[Hash(key, |t|)];
    LookupAbsent(s, k);
    DelTail(s, key);
    LookupAbsent(DelChain(s, key), k);
  }

  lemma DelIsRightIffFits(t: Table, key: string)
    requires Shaped(t)
    ensures DelAnswers(t, key) <==> Fits(t, DelCall(key))
  {
    hide Hash, Lookup, DelChain, DelFits, Tailed;
    var b := Hash(key, |t|);
    var r := DelChain(t[b], key);
    DeleteIsRightIff(t[b], key);
    DeleteTailedIff(t[b], key);
    if DelAnswers(t, key) {
      forall k ensures Lookup(r, k) == if k == key then None else Lookup(t[b], k) {
        if Hash(k, |t|) == b {
          assert Get(Del(t, key), k) == Lookup(r, k);
        } else {
          DelElsewhere(t, key, k);
        }
      }
    }
  }

  lemma {:induction false} NothingNewArrives(s: Chain, key: string)
    requires Lookup(s, key) == None
    ensures Lookup(SetEach(s), key) == None
    decreases |s|
  {
    if s != [] {
      var r, e := s[..|s| - 1], s[|s| - 1];
      assert s == r + [e];
      LookupAppend(r, [e], key);
      NothingNewArrives(r, key);
      StaysAbsent(SetEach(r), e.key, e.value, key);
    }
  }

  // Whatever else a set does, it does not make another key appear.
  lemma NothingNewAppears(t: Table, key: string, v: int, k: string)
    requires Shaped(t) && Get(t, k) == None && k != key
    ensures Get(Set(t, key, v), k) == None
  {
    hide Resize, SetChain, Lookup, Hash, Used, Due, SetEach, Tailed;
    if Used(t) > 60 {
      var b := Hash(k, 2 * |t| + 1);
      ResizedBucket(t, b);
      SameAnswers(t, k);
      NothingNewArrives(Due(t, b), k);
    }
    var u := if Used(t) > 60 then Resize(t) else t;
    if Hash(k, |u|) == Hash(key, |u|) { StaysAbsent(u[Hash(key, |u|)], key, v, k); }
  }

  lemma DelKeepsShape(t: Table, key: string)
    requires Shaped(t)
    ensures Shaped(Del(t, key))
  {
    DelTail(t[Hash(key, |t|)], key);
    DelKeepsTailed(t[Hash(key, |t|)], key);
  }

  lemma DelKeepsLoad(t: Table, key: string)
    requires Loaded(t)
    ensures Loaded(Del(t, key))
  {
    var b := Hash(key, |t|);
    DelTail(t[b], key);
    EntriesUpdate(t, b, DelChain(t[b], key));
  }

  // ---------------------------------------------------------------- sequences of calls

  ghost predicate AllFit(t: Table, calls: seq<Call>)
    decreases |calls|
  {
    calls == [] || (Fits(t, calls[0]) && AllFit(Do(t, calls[0]), calls[1..]))
  }

  function DoAll(t: Table, calls: seq<Call>): Table
    decreases |calls|
  {
    if calls == [] then t else DoAll(Do(t, calls[0]), calls[1..])
  }

  function DoAllMap(m: map<string, int>, calls: seq<Call>): map<string, int>
    decreases |calls|
  {
    if calls == [] then m else DoAllMap(DoMap(m, calls[0]), calls[1..])
  }

  ghost predicate AgreesThroughout(t: Table, m: map<string, int>, calls: seq<Call>)
    decreases |calls|
  {
    Agrees(t, m) && (calls == [] || AgreesThroughout(Do(t, calls[0]), DoMap(m, calls[0]), calls[1..]))
  }

  lemma StepKeepsShape(t: Table, call: Call)
    requires Shaped(t)
    ensures Shaped(Do(t, call))
  {
    hide Shaped, Put, Resize, Del, Used;
    match call {
      case SetCall(k, v) =>
        ResizeKeepsShape(t);
        PutKeepsShape(if Used(t) > 60 then Resize(t) else t, k, v);
      case DelCall(k) => DelKeepsShape(t, k);
    }
  }

  lemma StepAgreesIff(t: Table, m: map<string, int>, call: Call)
    requires Shaped(t) && Agrees(t, m)
    ensures Agrees(Do(t, call), DoMap(m, call)) <==> Fits(t, call)
  {
    hide Fits, Set, Del, Shaped, Get;
    match call {
      case SetCall(k, v) => SetIsRightIffFits(t, k, v);
      case DelCall(k) => DelIsRightIffFits(t, k);
    }
  }

  /** From a table that agrees with a map, any run of calls agrees with the map at every point exactly
      when every call fits. */
  lemma {:induction false} RunAgreesIff(t: Table, m: map<string, int>, calls: seq<Call>)
    requires Shaped(t) && Agrees(t, m)
    ensures AgreesThroughout(t, m, calls) <==> AllFit(t, calls)
    decreases |calls|
  {
    hide Agrees, Shaped, Fits, Do, DoMap;
    if calls != [] {
      StepAgreesIff(t, m, calls[0]);
      StepKeepsShape(t, calls[0]);
      if Fits(t, calls[0]) {
        RunAgreesIff(Do(t, calls[0]), DoMap(m, calls[0]), calls[1..]);
      } else {
        assert !AgreesThroughout(Do(t, calls[0]), DoMap(m, calls[0]), calls[1..]);
      }
    }
  }

  // In particular it agrees at the end.
  lemma {:induction false} RunAgrees(t: Table, m: map<string, int>, calls: seq<Call>)
    requires Shaped(t) && Agrees(t, m) && AllFit(t, calls)
    ensures Agrees(DoAll(t, calls), DoAllMap(m, calls))
    decreases |calls|
  {
    hide Agrees, Shaped, Fits, Do, DoMap;
    if calls != [] {
      StepAgreesIff(t, m, calls[0]);
      StepKeepsShape(t, calls[0]);
      RunAgrees(Do(t, calls[0]), DoMap(m, calls[0]), calls[1..]);
    }
  }

  // The shape and the load bound hold after any calls at all, right or wrong.
  lemma {:induction false} RunKeepsShape(t: Table, calls: seq<Call>)
    requires Shaped(t)
    ensures Shaped(DoAll(t, calls))
    decreases |calls|
  {
    hide Shaped, Do;
    if calls != [] {
      StepKeepsShape(t, calls[0]);
      RunKeepsShape(Do(t, calls[0]), calls[1..]);
    }
  }

  lemma {:induction false} RunKeepsLoad(t: Table, calls: seq<Call>)
    requires Loaded(t)
    ensures Loaded(DoAll(t, calls))
    decreases |calls|
  {
    hide Loaded, Set, Del;
    if calls != [] {
      match calls[0] {
        case SetCall(k, v) => SetKeepsLoad(t, k, v);
        case DelCall(k) => DelKeepsLoad(t, k);
      }
      RunKeepsLoad(Do(t, calls[0]), calls[1..]);
    }
  }

  lemma FreshTable(size: nat)
    requires size > 0
    ensures Shaped(Empty(size)) && Agrees(Empty(size), map[]) && Loaded(Empty(size))
  {
    EmptyCounts(Empty(size));
  }

  /** Any run from carp_ht_init on agrees with a finite map at every point exactly when every call of
      it fits; the load bound and the shape hold in any case. */
  lemma FreshRunAgreesIff(size: nat, calls: seq<Call>)
    requires size > 0
    ensures AgreesThroughout(Empty(size), map[], calls) <==> AllFit(Empty(size), calls)
    ensures Loaded(DoAll(Empty(size), calls)) && Shaped(DoAll(Empty(size), calls))
  {
    hide AgreesThroughout, AllFit, DoAll, Loaded, Shaped;
    FreshTable(size);
    RunAgreesIff(Empty(size), map[], calls);
    RunKeepsLoad(Empty(size), calls);
    RunKeepsShape(Empty(size), calls);
  }
}
