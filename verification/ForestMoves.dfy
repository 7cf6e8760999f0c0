/** What each talloc operation means for the forest, and which header words that changes.

    Every move is given as a new `Forest`; its `...Header` lemma says, chunk by chunk, how the
    headers that stand for the new forest differ from those that stand for the old one.
  */
module ForestMoves {
  import opened Forests

  // s with the (only) occurrence of m taken out.
  ghost function Without(s: seq<Chunk>, m: Chunk): seq<Chunk> {
    if s == [] then [] else if s[0] == m then s[1..] else [s[0]] + Without(s[1..], m)
  }

  lemma {:induction false} WithoutAt(s: seq<Chunk>, m: Chunk, i: nat)
    requires i < |s| && s[i] == m && m !in s[..i]
    ensures Without(s, m) == s[..i] + s[i + 1..]
  {
    if i > 0 {
      assert s[0] in s[..i];
      assert s[..i] == [s[0]] + s[1..][..i - 1];
      WithoutAt(s[1..], m, i - 1);
      assert s == [s[0]] + s[1..];
      assert s[..i] + s[i + 1..] == [s[0]] + (s[1..][..i - 1] + s[1..][i..]);
    }
  }

  lemma {:induction false} WithoutAbsent(s: seq<Chunk>, m: Chunk)
    requires m !in s
    ensures Without(s, m) == s
  {
    if s != [] {
      WithoutAbsent(s[1..], m);
      assert s == [s[0]] + s[1..];
    }
  }

  // ---------------------------------------------------------------- a new root

  ghost function Planted(f: Forest, m: Chunk): Forest {
    f[m := Node([], null, 0, 0)]
  }

  lemma PlantedForest(f: Forest, m: Chunk)
    requires WellFormed(f) && m !in f
    ensures WellFormed(Planted(f, m))
    ensures Words(Planted(f, m)) == Words(f)[m := Header(null, null, null)]
  {
    var g := Planted(f, m);
    forall p, i: nat | p in g ensures KidFits(g, p, i) { assert KidFits(f, p, i); }
    forall c | c in g ensures PlaceFits(g, c) { assert PlaceFits(f, c); }
    forall c | c in f ensures HeaderOf(g, c) == HeaderOf(f, c) { assert PlaceFits(f, c); }
  }

  // ---------------------------------------------------------------- taking a subtree out

  ghost function Cut(f: Forest, m: Chunk): Forest
    requires WellFormed(f) && m in f
  {
    assert PlaceFits(f, m);
    var p, i := f[m].parent, f[m].pos;
    if p == null then f else
      map c | c in f ::
        if c == m then f[m].(parent := null)
        else Node(if c == p then f[p].kids[..i] + f[p].kids[i + 1..] else f[c].kids,
                  f[c].parent,
                  if f[c].parent == p && f[c].pos > i then f[c].pos - 1 else f[c].pos,
                  f[c].rank)
  }

  lemma CutForest(f: Forest, m: Chunk)
    requires WellFormed(f) && m in f
    ensures WellFormed(Cut(f, m))
  {
    var g := Cut(f, m);
    assert PlaceFits(f, m);
    forall p, i: nat | p in g ensures KidFits(g, p, i) {
      assert KidFits(f, p, i) && KidFits(f, p, i + 1);
    }
    forall c | c in g ensures PlaceFits(g, c) { assert PlaceFits(f, c); }
  }

  ghost function Detached(f: Forest, m: Chunk): (g: Forest)
    requires WellFormed(f) && m in f
    ensures WellFormed(g) && g.Keys == f.Keys
    ensures g[m].kids == f[m].kids && g[m].parent == null
  {
    assert PlaceFits(f, m);
    CutForest(f, m);
    Cut(f, m)
  }

  // An entry of a list with its j-th element left out.
  lemma SkipAt(s: seq<Chunk>, j: nat, k: nat)
    requires j < |s|
    ensures At(s[..j] + s[j + 1..], k) == At(s, if k < j then k else k + 1)
  {
  }

  lemma DetachedNode(f: Forest, m: Chunk, c: Chunk)
    requires WellFormed(f) && m in f && c in f && c != m && f[c].parent != null
    ensures var n, i, j := Detached(f, m)[c], f[c].pos, f[m].pos;
      && n.parent == f[c].parent && n.parent in f
      && n.pos == (if f[m].parent == n.parent && i > j then i - 1 else i)
      && forall k: nat :: At(Detached(f, m)[n.parent].kids, k)
                          == At(f[n.parent].kids, if f[m].parent == n.parent && k >= j then k + 1 else k)
  {
    assert PlaceFits(f, c) && PlaceFits(f, m);
    var p, j := f[c].parent, f[m].pos;
    if f[m].parent == p {
      forall k: nat ensures At(Detached(f, m)[p].kids, k) == At(f[p].kids, if k >= j then k + 1 else k) {
        SkipAt(f[p].kids, j, k);
      }
    }
  }

  lemma DetachedNext(f: Forest, m: Chunk, c: Chunk)
    requires WellFormed(f) && m in f && c in f && c != m && f[c].parent != null
    ensures HeaderOf(Detached(f, m), c).next ==
            if HeaderOf(f, c).next == m then HeaderOf(f, m).next else HeaderOf(f, c).next
  {
    hide Detached;
    DetachedNode(f, m, c);
    assert PlaceFits(f, c) && PlaceFits(f, m) && KidFits(f, f[c].parent, f[c].pos + 1);
  }

  lemma DetachedPrev(f: Forest, m: Chunk, c: Chunk)
    requires WellFormed(f) && m in f && c in f && c != m && f[c].parent != null
    ensures HeaderOf(Detached(f, m), c).prev ==
            if HeaderOf(f, m).next == c then HeaderOf(f, m).prev else HeaderOf(f, c).prev
  {
    hide Detached;
    var i, j := f[c].pos, f[m].pos;
    DetachedNode(f, m, c);
    assert PlaceFits(f, c) && PlaceFits(f, m);
    if f[m].parent != null { assert KidFits(f, f[m].parent, j + 1); }
    assert PlaceFits(Detached(f, m), c);
    var g := Detached(f, m);
    if g[c].pos > 0 {
      assert HeaderOf(g, c).prev == At(g[f[c].parent].kids, g[c].pos - 1);
    }
  }

  lemma DetachedHeader(f: Forest, m: Chunk, c: Chunk)
    requires WellFormed(f) && m in f && c in f
    ensures var was, now, gone := HeaderOf(f, c), HeaderOf(Detached(f, m), c), HeaderOf(f, m);
      && now.child == (if was.child == m then gone.next else was.child)
      && now.next == (if c == m then null else if was.next == m then gone.next else was.next)
      && now.prev == (if c == m then null else if gone.next == c then gone.prev else was.prev)
  {
    assert PlaceFits(f, c) && PlaceFits(f, m) && KidFits(f, c, 0);
    if c != m && f[c].parent != null {
      DetachedNext(f, m, c);
      DetachedPrev(f, m, c);
    } else if f[m].parent != null {
      assert KidFits(f, f[m].parent, f[m].pos + 1);
    }
  }

  lemma DetachedKids(f: Forest, m: Chunk)
    requires WellFormed(f) && m in f
    ensures forall q :: q in f ==> Detached(f, m)[q].kids == Without(f[q].kids, m)
  {
    assert PlaceFits(f, m);
    forall q | q in f
      ensures Detached(f, m)[q].kids == Without(f[q].kids, m)
    {
      forall i: nat | i < |f[q].kids| && f[q].kids[i] == m ensures f[m].parent == q && f[m].pos == i {
        assert KidFits(f, q, i);
      }
      if f[m].parent == q {
        WithoutAt(f[q].kids, m, f[m].pos);
      } else {
        WithoutAbsent(f[q].kids, m);
      }
    }
  }

  lemma {:induction false} DetachedBelow(f: Forest, m: Chunk, x: Chunk)
    requires WellFormed(f) && m in f && x in f
    ensures Below(Detached(f, m), m, x) <==> Below(f, m, x)
    decreases f[x].rank
  {
    assert PlaceFits(f, x);
    if x == m {
      NotBelowAbove(f, m, m);
    } else if f[x].parent != null && f[x].parent != m {
      DetachedBelow(f, m, f[x].parent);
    }
  }

  // ---------------------------------------------------------------- putting a subtree in front

  ghost function Pushed(f: Forest, m: Chunk, p: Chunk): Forest
    requires WellFormed(f) && m in f && p in f
  {
    map c | c in f ::
      Node(if c == p then [m] + f[p].kids else f[c].kids,
           if c == m then p else f[c].parent,
           if c == m then 0 else if f[c].parent == p then f[c].pos + 1 else f[c].pos,
           if Under(f, m, c) then f[c].rank + f[p].rank + 1 else f[c].rank)
  }

  lemma PushedForest(f: Forest, m: Chunk, p: Chunk)
    requires WellFormed(f) && m in f && p in f && f[m].parent == null && !Under(f, m, p)
    ensures WellFormed(Pushed(f, m, p))
  {
    var g := Pushed(f, m, p);
    forall q, i: nat | q in g ensures KidFits(g, q, i) {
      assert KidFits(f, q, i);
      if i > 0 { assert KidFits(f, q, i - 1); }
    }
    forall c | c in g ensures PlaceFits(g, c) { assert PlaceFits(f, c); }
  }

  lemma PushedNext(f: Forest, m: Chunk, p: Chunk, c: Chunk)
    requires WellFormed(f) && m in f && p in f && c in f && f[m].parent == null && !Under(f, m, p)
    requires WellFormed(Pushed(f, m, p))
    ensures HeaderOf(Pushed(f, m, p), c).next == if c == m then HeaderOf(f, p).child else HeaderOf(f, c).next
  {
    hide Under;
    assert PlaceFits(f, c);
  }

  lemma PushedPrev(f: Forest, m: Chunk, p: Chunk, c: Chunk)
    requires WellFormed(f) && m in f && p in f && c in f && f[m].parent == null && !Under(f, m, p)
    requires WellFormed(Pushed(f, m, p))
    ensures HeaderOf(Pushed(f, m, p), c).prev ==
            if c == m then p else if c == HeaderOf(f, p).child then m else HeaderOf(f, c).prev
  {
    hide Under;
    assert PlaceFits(f, c) && KidFits(f, p, 0);
  }

  lemma PushedHeader(f: Forest, m: Chunk, p: Chunk, c: Chunk)
    requires WellFormed(f) && m in f && p in f && c in f && f[m].parent == null && !Under(f, m, p)
    requires WellFormed(Pushed(f, m, p))
    ensures var was, now, first := HeaderOf(f, c), HeaderOf(Pushed(f, m, p), c), HeaderOf(f, p).child;
      && now.child == (if c == p then m else was.child)
      && now.next == (if c == m then first else was.next)
      && now.prev == (if c == m then p else if c == first then m else was.prev)
  {
    hide WellFormed, Under;
    PushedNext(f, m, p, c);
    PushedPrev(f, m, p, c);
  }

  // ---------------------------------------------------------------- handing over all children

  ghost function Adopted(f: Forest, m: Chunk, p: Chunk): Forest
    requires WellFormed(f) && m in f && p in f
  {
    map c | c in f ::
      Node(if c == m then [] else if c == p then f[m].kids + f[p].kids else f[c].kids,
           if f[c].parent == m then p else f[c].parent,
           if f[c].parent == p then f[c].pos + |f[m].kids| else f[c].pos,
           if Below(f, m, c) then f[c].rank + f[p].rank + 1 else f[c].rank)
  }

  lemma AdoptedForest(f: Forest, m: Chunk, p: Chunk)
    requires WellFormed(f) && m in f && p in f && f[m].parent == null && !Under(f, m, p)
    ensures WellFormed(Adopted(f, m, p))
  {
    var g := Adopted(f, m, p);
    NotBelowAbove(f, m, m);
    forall q, i: nat | q in g ensures KidFits(g, q, i) {
      assert KidFits(f, q, i) && KidFits(f, m, i);
      if i >= |f[m].kids| { assert KidFits(f, q, i - |f[m].kids|); }
    }
    forall c | c in g ensures PlaceFits(g, c) { assert PlaceFits(f, c); }
  }

  lemma AdoptedNext(f: Forest, m: Chunk, p: Chunk, c: Chunk)
    requires WellFormed(f) && m in f && p in f && c in f && f[m].parent == null && !Under(f, m, p)
    requires WellFormed(Adopted(f, m, p)) && f[m].kids != []
    ensures HeaderOf(Adopted(f, m, p), c).next ==
            if c == f[m].kids[|f[m].kids| - 1] then HeaderOf(f, p).child else HeaderOf(f, c).next
  {
    hide Below;
    assert PlaceFits(f, c) && KidFits(f, m, |f[m].kids| - 1);
  }

  lemma AdoptedPrev(f: Forest, m: Chunk, p: Chunk, c: Chunk)
    requires WellFormed(f) && m in f && p in f && c in f && f[m].parent == null && !Under(f, m, p)
    requires WellFormed(Adopted(f, m, p)) && f[m].kids != []
    ensures HeaderOf(Adopted(f, m, p), c).prev ==
            if c == f[m].kids[0] then p
            else if c == HeaderOf(f, p).child then f[m].kids[|f[m].kids| - 1]
            else HeaderOf(f, c).prev
  {
    hide Below;
    assert PlaceFits(f, c) && KidFits(f, p, 0) && KidFits(f, m, 0);
  }

  lemma AdoptedHeader(f: Forest, m: Chunk, p: Chunk, c: Chunk)
    requires WellFormed(f) && m in f && p in f && c in f && f[m].parent == null && !Under(f, m, p)
    requires WellFormed(Adopted(f, m, p)) && f[m].kids != []
    ensures var was, now := HeaderOf(f, c), HeaderOf(Adopted(f, m, p), c);
      var first, last := HeaderOf(f, p).child, f[m].kids[|f[m].kids| - 1];
      && now.child == (if c == m then null else if c == p then f[m].kids[0] else was.child)
      && now.next == (if c == last then first else was.next)
      && now.prev == (if c == f[m].kids[0] then p else if c == first then last else was.prev)
  {
    AdoptedNext(f, m, p, c);
    AdoptedPrev(f, m, p, c);
    hide WellFormed, Below;
    assert p != m;
  }

  // ---------------------------------------------------------------- letting an only child go

  ghost function Released(f: Forest, m: Chunk): Forest
    requires m in f
  {
    map c | c in f ::
      if c == m then f[c].(kids := []) else if f[c].parent == m then f[c].(parent := null) else f[c]
  }

  lemma ReleasedForest(f: Forest, m: Chunk)
    requires WellFormed(f) && m in f && |f[m].kids| <= 1
    ensures WellFormed(Released(f, m))
    ensures forall c :: c in f ==>
              && HeaderOf(Released(f, m), c).child == (if c == m then null else HeaderOf(f, c).child)
              && HeaderOf(Released(f, m), c).next == HeaderOf(f, c).next
              && HeaderOf(Released(f, m), c).prev == (if HeaderOf(f, m).child == c then null else HeaderOf(f, c).prev)
  {
    var g := Released(f, m);
    assert PlaceFits(f, m) && KidFits(f, m, 0);
    forall q, i: nat | q in g ensures KidFits(g, q, i) { assert KidFits(f, q, i); }
    forall c | c in g ensures PlaceFits(g, c) { assert PlaceFits(f, c); }
    forall c | c in f
      ensures && HeaderOf(g, c).child == (if c == m then null else HeaderOf(f, c).child)
              && HeaderOf(g, c).next == HeaderOf(f, c).next
              && HeaderOf(g, c).prev == (if HeaderOf(f, m).child == c then null else HeaderOf(f, c).prev)
    {
      assert PlaceFits(f, c);
    }
  }

  // ---------------------------------------------------------------- a chunk that moved

  ghost function Swap(o: Chunk, n: Chunk, c: Chunk?): (r: Chunk?)
    ensures c != null ==> r != null
  {
    if c == o then n else c
  }

  ghost function SwapAll(o: Chunk, n: Chunk, s: seq<Chunk>): (r: seq<Chunk>)
    ensures |r| == |s| && forall i :: 0 <= i < |s| ==> r[i] == Swap(o, n, s[i])
  {
    seq(|s|, i requires 0 <= i < |s| => Swap(o, n, s[i]))
  }

  ghost function Renamed(f: Forest, o: Chunk, n: Chunk): Forest
    requires o in f
  {
    map c | c in f.Keys - {o} + {n} ::
      var was := if c == n then f[o] else f[c];
      Node(SwapAll(o, n, was.kids), Swap(o, n, was.parent), was.pos, was.rank)
  }

  lemma RenamedForest(f: Forest, o: Chunk, n: Chunk)
    requires WellFormed(f) && o in f && n !in f
    ensures WellFormed(Renamed(f, o, n))
  {
    var g := Renamed(f, o, n);
    forall q, i: nat | q in g ensures KidFits(g, q, i) { assert KidFits(f, if q == n then o else q, i); }
    forall c | c in g ensures PlaceFits(g, c) { assert PlaceFits(f, if c == n then o else c); }
  }

  lemma RenamedHeader(f: Forest, o: Chunk, n: Chunk, c: Chunk)
    requires WellFormed(f) && o in f && n !in f && c in f && WellFormed(Renamed(f, o, n))
    ensures var was, now := HeaderOf(f, c), HeaderOf(Renamed(f, o, n), Swap(o, n, c));
      now == Header(Swap(o, n, was.child), Swap(o, n, was.next), Swap(o, n, was.prev))
  {
    assert PlaceFits(f, c);
  }

  // ---------------------------------------------------------------- a root and all below it, gone

  ghost function Felled(f: Forest, m: Chunk): Forest
    requires WellFormed(f)
  {
    map c | c in f && !Under(f, m, c) :: f[c]
  }

  lemma FelledForestOf(f: Forest, m: Chunk)
    requires WellFormed(f) && m in f && f[m].parent == null
    ensures WellFormed(Felled(f, m))
    ensures forall c :: c in Felled(f, m) ==> HeaderOf(Felled(f, m), c) == HeaderOf(f, c)
  {
    var g := Felled(f, m);
    forall q, i: nat | q in g ensures KidFits(g, q, i) {
      assert KidFits(f, q, i);
      if i < |f[q].kids| { assert PlaceFits(f, f[q].kids[i]); }
    }
    forall c | c in g ensures PlaceFits(g, c) { assert PlaceFits(f, c); }
    forall c | c in g ensures HeaderOf(g, c) == HeaderOf(f, c) { assert PlaceFits(f, c); }
  }
}
