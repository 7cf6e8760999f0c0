/** The allocator of deps/talloc/talloc.c, statement by statement.

    `malloc` and `realloc` are reduced to their outcomes; what is kept is which chunks are live
    and what their three header words hold.  The bodies follow the C text, including the second
    `is_first` test of `talloc_set_parent`; the contracts say for which calls the headers still
    stand for a forest afterwards, and that no forest explains them after any other call.
  */
module Tallocs {
  import opened Forests
  import opened ForestMoves
  import opened NoForest

  datatype Resize = Failed | InPlace | Moved

  ghost function Snapshot(live: set<Chunk>): Memory
    reads live
  {
    map c | c in live :: Header(c.child, c.next, c.prev)
  }

  lemma SameChunks(f: Forest, live: set<Chunk>)
    requires Represents(f, Snapshot(live))
    ensures f.Keys == live
    ensures forall c :: c in live ==> Header(c.child, c.next, c.prev) == HeaderOf(f, c)
  {
    assert Snapshot(live).Keys == live && Words(f).Keys == f.Keys;
    forall c | c in live ensures Header(c.child, c.next, c.prev) == HeaderOf(f, c) {
      assert Snapshot(live)[c] == Words(f)[c];
    }
  }

  // The calls of `talloc_set_parent` after which the headers are a forest again.
  ghost predicate CanMove(f: Forest, m: Chunk, p: Chunk?)
    requires WellFormed(f) && m in f
  {
    DetachesCleanly(Words(f), m) && (p in f ==> !Under(f, m, p))
  }

  /** m leads p's children, in front of those p had; it is gone from where it was; every other
      list and every other parent is as before. */
  ghost predicate IsMoved(f: Forest, g: Forest, m: Chunk, p: Chunk?) {
    g.Keys == f.Keys &&
    forall q :: q in f ==>
      && g[q].kids == (if q == p then [m] else []) + Without(f[q].kids, m)
      && g[q].parent == if q == m then p else f[q].parent
  }

  // The calls of `talloc_steal` after which the headers are a forest again.
  ghost predicate CanSteal(f: Forest, m: Chunk, p: Chunk?)
    requires WellFormed(f) && m in f
  {
    && DetachesCleanly(Words(f), m)
    && (f[m].kids == [] || (p == null && |f[m].kids| == 1) || (p in f && !Under(f, m, p)))
  }

  lemma ClobberedChild(f: Forest, m: Chunk, p: Chunk)
    requires WellFormed(f) && m in f && p in f
    ensures Clobbered(f, m)[p].child != null ==> Clobbered(f, m)[p].child in f
    ensures Clobbered(f, m)[m].next == null
  {
    DetachedHeader(f, m, m);
    DetachedHeader(f, m, p);
    PointerDiscipline(f, Words(f), p);
    PointerDiscipline(f, Words(f), m);
  }

  // The memory that `talloc_set_parent` leaves behind.
  ghost function MovedMemory(f: Forest, m: Chunk, p: Chunk?): Memory
    requires WellFormed(f) && m in f && (p == null || p in f)
  {
    if p != null then Linked(Clobbered(f, m), m, p) else Clobbered(f, m)
  }

  ghost function MovedForest(f: Forest, m: Chunk, p: Chunk?): Forest
    requires WellFormed(f) && m in f && (p == null || p in f)
  {
    if p != null then Pushed(Detached(f, m), m, p) else Detached(f, m)
  }

  lemma MoveMakesForest(f: Forest, m: Chunk, p: Chunk?)
    requires WellFormed(f) && m in f && (p == null || p in f)
    requires CanMove(f, m, p)
    ensures Represents(MovedForest(f, m, p), MovedMemory(f, m, p))
  {
    var d := Detached(f, m);
    CleanDetach(f, m);
    if p != null {
      DetachedBelow(f, m, p);
      PushedForest(d, m, p);
      LinkedIsPushed(d, m, p);
    }
  }

  lemma MoveShape(f: Forest, m: Chunk, p: Chunk?)
    requires WellFormed(f) && m in f && (p == null || p in f)
    ensures IsMoved(f, MovedForest(f, m, p), m, p)
  {
    DetachedKids(f, m);
  }

  lemma MoveMakesNoForest(f: Forest, m: Chunk, p: Chunk?, g: Forest)
    requires WellFormed(f) && m in f && (p == null || p in f)
    requires !CanMove(f, m, p)
    ensures !Represents(g, MovedMemory(f, m, p))
  {
    if !DetachesCleanly(Words(f), m) {
      var w := Witness(f, m);
      if p == null {
        DirtyDetach(f, m);
      } else {
        BrokenAfterLink(f, m, p);
      }
      BrokenIsNoForest(MovedMemory(f, m, p), w.0, w.1, g);
    } else {
      CleanDetach(f, m);
      DetachedBelow(f, m, p);
      LinkedCycle(Detached(f, m), m, p, g);
    }
  }

  /** `talloc_set_parent` leaves a forest behind exactly when `CanMove` holds of its arguments. */
  lemma MoveIsForestIff(f: Forest, m: Chunk, p: Chunk?)
    requires WellFormed(f) && m in f && (p == null || p in f)
    ensures CanMove(f, m, p) <==> exists g: Forest :: Represents(g, MovedMemory(f, m, p))
  {
    if CanMove(f, m, p) {
      MoveMakesForest(f, m, p);
    } else {
      forall g: Forest ensures !Represents(g, MovedMemory(f, m, p)) { MoveMakesNoForest(f, m, p, g); }
    }
  }

  // A root with children a and m, in this order, and a child c of a.
  ghost function Family(root: Chunk, a: Chunk, m: Chunk, c: Chunk): Forest {
    map[root := Node([a, m], null, 0, 0), a := Node([c], root, 0, 1), m := Node([], root, 1, 1), c := Node([], a, 0, 2)]
  }

  lemma FamilyIsForest(root: Chunk, a: Chunk, m: Chunk, c: Chunk)
    requires root != a && root != m && root != c && a != m && a != c && m != c
    ensures WellFormed(Family(root, a, m, c))
  {
    var f := Family(root, a, m, c);
    forall p, i: nat | p in f ensures KidFits(f, p, i) {}
    forall x | x in f ensures PlaceFits(f, x) {}
  }

  /** Making m a root loses the child of its left sibling a: no forest explains what is left. */
  lemma SiblingLosesChild(root: Chunk, a: Chunk, m: Chunk, c: Chunk)
    requires root != a && root != m && root != c && a != m && a != c && m != c
    ensures var f := Family(root, a, m, c);
      WellFormed(f) && m in f && !CanMove(f, m, null) && forall g: Forest :: !Represents(g, MovedMemory(f, m, null))
  {
    var f := Family(root, a, m, c);
    FamilyIsForest(root, a, m, c);
    assert HeaderOf(f, m) == Header(null, null, a) && HeaderOf(f, a) == Header(c, m, root);
    MoveIsForestIff(f, m, null);
  }

  // ---------------------------------------------------------------- talloc_steal

  // Detaching m leaves the links among its children alone.
  lemma ClobberedKids(f: Forest, m: Chunk, j: nat)
    requires WellFormed(f) && m in f
    ensures Clobbered(f, m)[m].child == At(f[m].kids, 0)
    ensures j < |f[m].kids| ==>
              var k := f[m].kids[j]; k in f && f[k].parent == m && Clobbered(f, m)[k].next == At(f[m].kids, j + 1)
  {
    PointerDiscipline(f, Words(f), m);
    DetachedHeader(f, m, m);
    if j < |f[m].kids| {
      assert KidFits(f, m, j);
      DetachedHeader(f, m, f[m].kids[j]);
      PointerDiscipline(f, Words(f), f[m].kids[j]);
      assert PlaceFits(f, m);
    }
  }

  ghost function Joined(h: Memory, last: Chunk, first: Chunk): Memory {
    map c | c in h ::
      Header(h[c].child, if c == last then first else h[c].next, if c == first then last else h[c].prev)
  }

  ghost function Attached(h: Memory, m: Chunk, p: Chunk?): Memory
    requires m in h
  {
    map c | c in h ::
      Header(if c == m then null else if c == p then h[m].child else h[c].child,
             h[c].next,
             if c == h[m].child then p else h[c].prev)
  }

  lemma StolenInSteps(f: Forest, m: Chunk, p: Chunk?)
    requires WellFormed(f) && m in f && (p == null || p in f) && f[m].kids != []
    ensures var h, last := Clobbered(f, m), f[m].kids[|f[m].kids| - 1];
      StolenMemory(f, m, p) ==
        if p != null && h[p].child != null then Attached(Joined(h, last, h[p].child), m, p) else Attached(h, m, p)
  {
    ClobberedKids(f, m, 0);
    ClobberedKids(f, m, |f[m].kids| - 1);
  }

  // The memory that `talloc_steal` leaves behind.
  ghost function StolenMemory(f: Forest, m: Chunk, p: Chunk?): Memory
    requires WellFormed(f) && m in f && (p == null || p in f)
  {
    var h, s := Clobbered(f, m), f[m].kids;
    if s == [] then h else if p == null then Loosened(h, m) else Spliced(h, m, p, s[|s| - 1])
  }

  ghost function StolenForest(f: Forest, m: Chunk, p: Chunk?): Forest
    requires WellFormed(f) && m in f && (p == null || p in f)
  {
    var d := Detached(f, m);
    if f[m].kids == [] then d else if p == null then Released(d, m) else Adopted(d, m, p)
  }

  /** m is a childless root; its children lead those p had, in their old order; every other list
      and every other parent is as before. */
  ghost predicate IsStolen(f: Forest, g: Forest, m: Chunk, p: Chunk?)
    requires m in f
  {
    g.Keys == f.Keys &&
    forall q :: q in f ==>
      && g[q].kids == (if q == m then [] else (if q == p then f[m].kids else []) + Without(f[q].kids, m))
      && g[q].parent == if q == m then null else if f[q].parent == m then p else f[q].parent
  }

  lemma StealShape(f: Forest, m: Chunk, p: Chunk?)
    requires WellFormed(f) && m in f && (p == null || p in f) && (p != m || f[m].kids == [])
    ensures IsStolen(f, StolenForest(f, m, p), m, p)
  {
    DetachedKids(f, m);
    assert forall q :: q in f && f[q].parent == m ==> PlaceFits(f, q);
  }

  lemma StealMakesForest(f: Forest, m: Chunk, p: Chunk?)
    requires WellFormed(f) && m in f && (p == null || p in f) && CanSteal(f, m, p)
    ensures Represents(StolenForest(f, m, p), StolenMemory(f, m, p))
  {
    hide WellFormed, Words, Below, Detached, Spliced, Loosened, Released, Clobbered, DetachesCleanly;
    CleanDetach(f, m);
    if f[m].kids != [] {
      if p == null {
        ReleasedForest(Detached(f, m), m);
        LoosenedIsReleased(Detached(f, m), m);
      } else {
        DetachedBelow(f, m, p);
        AdoptDetached(Detached(f, m), m, p);
      }
    }
  }

  lemma AdoptDetached(d: Forest, m: Chunk, p: Chunk)
    requires WellFormed(d) && m in d && p in d && !Under(d, m, p) && d[m].parent == null && d[m].kids != []
    ensures Represents(Adopted(d, m, p), Spliced(Words(d), m, p, d[m].kids[|d[m].kids| - 1]))
  {
    hide Adopted, Spliced, Words, WellFormed, Under;
    AdoptedForest(d, m, p);
    SplicedIsAdopted(d, m, p);
  }

  lemma LastKid(f: Forest, m: Chunk)
    requires WellFormed(f) && m in f && f[m].kids != []
    ensures var last := f[m].kids[|f[m].kids| - 1]; last in f && f[last].parent == m
  {
    assert KidFits(f, m, |f[m].kids| - 1);
  }

  lemma StealMakesNoForest(f: Forest, m: Chunk, p: Chunk?, g: Forest)
    requires WellFormed(f) && m in f && (p == null || p in f) && !CanSteal(f, m, p)
    ensures !Represents(g, StolenMemory(f, m, p))
  {
    hide WellFormed, Below, HeaderOf, Detached, Spliced, Loosened, Released, Clobbered, DetachesCleanly, Broken;
    var d, h := Detached(f, m), StolenMemory(f, m, p);
    if !DetachesCleanly(Words(f), m) {
      var w := Witness(f, m);
      if f[m].kids == [] {
        DirtyDetach(f, m);
      } else if p == null {
        BrokenAfterLoosen(f, m);
      } else {
        LastKid(f, m);
        BrokenAfterSplice(f, m, p, f[m].kids[|f[m].kids| - 1]);
      }
      BrokenIsNoForest(h, w.0, w.1, g);
    } else {
      CleanDetach(f, m);
      if p == null {
        BrokenWhenLoosened(d, m);
        BrokenIsNoForest(h, f[m].kids[0], f[m].kids[1], g);
      } else if p == m {
        BrokenWhenSelf(d, m, f[m].kids[|f[m].kids| - 1]);
        BrokenIsNoForest(h, m, f[m].kids[0], g);
      } else {
        DetachedBelow(f, m, p);
        SplicedCycle(d, m, p, g);
      }
    }
  }

  /** `talloc_steal` leaves a forest behind exactly when `CanSteal` holds of its arguments. */
  lemma StealIsForestIff(f: Forest, m: Chunk, p: Chunk?)
    requires WellFormed(f) && m in f && (p == null || p in f)
    ensures CanSteal(f, m, p) <==> exists g: Forest :: Represents(g, StolenMemory(f, m, p))
  {
    if CanSteal(f, m, p) {
      StealMakesForest(f, m, p);
    } else {
      forall g: Forest ensures !Represents(g, StolenMemory(f, m, p)) { StealMakesNoForest(f, m, p, g); }
    }
  }

  /** Handing the two children of root to nobody leaves m pointing at a root as its left sibling. */
  lemma SecondChildHangs(root: Chunk, a: Chunk, m: Chunk, c: Chunk)
    requires root != a && root != m && root != c && a != m && a != c && m != c
    ensures var f := Family(root, a, m, c);
      && WellFormed(f) && !CanSteal(f, root, null)
      && StolenMemory(f, root, null)[a].prev == null && StolenMemory(f, root, null)[a].next == m
      && StolenMemory(f, root, null)[m].prev == a
      && forall g: Forest :: !Represents(g, StolenMemory(f, root, null))
  {
    var f := Family(root, a, m, c);
    FamilyIsForest(root, a, m, c);
    StealIsForestIff(f, root, null);
    DetachedHeader(f, root, a);
    DetachedHeader(f, root, m);
    DetachedHeader(f, root, root);
  }

  // ---------------------------------------------------------------- tfree

  // What is left after `tfree`.
  ghost function FelledMemory(f: Forest, m: Chunk): Memory
    requires WellFormed(f) && m in f
  {
    map c | c in f && !Under(f, m, c) :: ClobberedHeader(f, m, c)
  }

  lemma SubtreeDetached(f: Forest, m: Chunk)
    requires WellFormed(f) && m in f
    ensures Subtree(Detached(f, m), m) == Subtree(f, m)
    ensures forall c :: c in f ==> (Under(Detached(f, m), m, c) <==> Under(f, m, c))
  {
    forall c | c in f ensures Under(Detached(f, m), m, c) <==> Under(f, m, c) { DetachedBelow(f, m, c); }
  }

  // The chunks to be freed are linked below mem as the forest says, and none looks like a root.
  lemma TailIntact(f: Forest, m: Chunk, h: Memory)
    requires WellFormed(f) && m in f && h == Clobbered(f, m)
    ensures var d := Detached(f, m);
      forall x :: x in Tail(d, m, 0) ==>
        h[x].child == HeaderOf(d, x).child && h[x].next == HeaderOf(d, x).next && h[x].prev != null
  {
    var d := Detached(f, m);
    PointerDiscipline(f, Words(f), m);
    forall x | x in Tail(d, m, 0)
      ensures h[x].child == HeaderOf(d, x).child && h[x].next == HeaderOf(d, x).next && h[x].prev != null
    {
      PointerDiscipline(d, Words(d), x);
      DetachedBelow(f, m, x);
      if HeaderOf(f, m).prev == x && HeaderOf(f, x).next == m {
        SiblingsNotBelow(f, m, x);
      }
    }
  }

  ghost function FelledForest(f: Forest, m: Chunk): Forest
    requires WellFormed(f) && m in f
  {
    Felled(Detached(f, m), m)
  }

  lemma FellShape(f: Forest, m: Chunk)
    requires WellFormed(f) && m in f
    ensures var g := FelledForest(f, m);
      && g.Keys == f.Keys - Subtree(f, m)
      && forall q :: q in g ==> g[q].kids == Without(f[q].kids, m) && g[q].parent == f[q].parent
  {
    SubtreeDetached(f, m);
    DetachedKids(f, m);
  }

  lemma FellMakesForest(f: Forest, m: Chunk)
    requires WellFormed(f) && m in f && DetachesCleanly(Words(f), m)
    ensures Represents(FelledForest(f, m), FelledMemory(f, m))
  {
    var d := Detached(f, m);
    FelledForestOf(d, m);
    SubtreeDetached(f, m);
    var g := FelledForest(f, m);
    assert g.Keys == FelledMemory(f, m).Keys;
    forall c | c in g ensures ClobberedHeader(f, m, c) == HeaderOf(g, c) { CleanHeader(f, m, c); }
  }

  lemma CleanHeader(f: Forest, m: Chunk, c: Chunk)
    requires WellFormed(f) && m in f && c in f && DetachesCleanly(Words(f), m)
    ensures ClobberedHeader(f, m, c) == HeaderOf(Detached(f, m), c)
  {
    CleanDetach(f, m);
    assert Clobbered(f, m)[c] == Words(Detached(f, m))[c];
  }

  lemma FellMakesNoForest(f: Forest, m: Chunk, g: Forest)
    requires WellFormed(f) && m in f && !DetachesCleanly(Words(f), m)
    ensures !Represents(g, FelledMemory(f, m))
  {
    var w := Witness(f, m);
    DirtyDetach(f, m);
    BrokenIsNoForest(FelledMemory(f, m), w.0, w.1, g);
  }

  /** `tfree` leaves a forest behind exactly when its argument detaches cleanly. */
  lemma FellIsForestIff(f: Forest, m: Chunk)
    requires WellFormed(f) && m in f
    ensures DetachesCleanly(Words(f), m) <==> exists g: Forest :: Represents(g, FelledMemory(f, m))
  {
    if DetachesCleanly(Words(f), m) {
      FellMakesForest(f, m);
    } else {
      forall g: Forest ensures !Represents(g, FelledMemory(f, m)) { FellMakesNoForest(f, m, g); }
    }
  }

  // ---------------------------------------------------------------- what is touched, and when

  // While a tree is freed: a live chunk's header is read or written, or the chunk is freed.
  datatype Event = Touched(chunk: Chunk) | Freed(chunk: Chunk)

  // Nothing happens to a chunk after it is freed; in particular it is not freed again.
  predicate Safe(t: seq<Event>) {
    forall j, k :: 0 <= j < k < |t| && t[j].Freed? ==> t[k].chunk != t[j].chunk
  }

  predicate Only(t: seq<Event>, s: set<Chunk>) {
    forall j :: 0 <= j < |t| ==> t[j].chunk in s
  }

  // The chunks of s are freed, each once, and touched at most before that; no others are looked at.
  ghost predicate FreesExactly(t: seq<Event>, s: set<Chunk>) {
    Safe(t) && Only(t, s) && forall c :: c in s ==> Freed(c) in t
  }

  // What `__tfree` does, from the i-th child of a on: line 149 and 150, 152, 153 and 154.
  ghost function Trace(f: Forest, a: Chunk, i: nat): seq<Event>
    requires WellFormed(f) && a in f && i <= |f[a].kids|
    decreases Tail(f, a, i)
  {
    if i == |f[a].kids| then []
    else
      TailSplits(f, a, i);
      var m := f[a].kids[i];
      [Touched(m), Touched(m)] + Trace(f, m, 0) + [Touched(m)] + Trace(f, a, i + 1) + [Freed(m)]
  }

  // Touching m around the freeing of others, and freeing it at the end.
  lemma FreesLast(m: Chunk, t: seq<Event>, s: set<Chunk>, u: seq<Event>, v: set<Chunk>)
    requires FreesExactly(t, s) && FreesExactly(u, v) && s !! v && m !in s && m !in v
    ensures FreesExactly([Touched(m), Touched(m)] + t + [Touched(m)] + u + [Freed(m)], {m} + s + v)
  {
    var w := [Touched(m), Touched(m)] + t + [Touched(m)] + u + [Freed(m)];
    var n := |t| + 3;
    forall j | 0 <= j < |w|
      ensures w[j] == (if j < 2 || j == n - 1 then Touched(m) else if j < n then t[j - 2]
                       else if j < n + |u| then u[j - n] else Freed(m))
    {}
    assert forall j :: 0 <= j < |t| ==> t[j].chunk in s;
    assert forall j :: 0 <= j < |u| ==> u[j].chunk in v;
    forall c | c in {m} + s + v ensures Freed(c) in w {
      if Freed(c) in t { var j :| 0 <= j < |t| && t[j] == Freed(c); assert w[j + 2] == Freed(c); }
      if Freed(c) in u { var j :| 0 <= j < |u| && u[j] == Freed(c); assert w[j + n] == Freed(c); }
      assert w[n + |u|] == Freed(m);
    }
  }

  /** `__tfree` frees the subtrees it is given, every chunk once and never touched again. */
  lemma {:induction false} TraceFrees(f: Forest, a: Chunk, i: nat)
    requires WellFormed(f) && a in f && i <= |f[a].kids|
    ensures FreesExactly(Trace(f, a, i), Tail(f, a, i))
    decreases Tail(f, a, i)
  {
    hide FreesExactly;
    if i == |f[a].kids| {
      TailEnds(f, a);
      FreesNothing();
    } else {
      TailSplits(f, a, i);
      var m := f[a].kids[i];
      TraceFrees(f, m, 0);
      TraceFrees(f, a, i + 1);
      FreesLast(m, Trace(f, m, 0), Tail(f, m, 0), Trace(f, a, i + 1), Tail(f, a, i + 1));
    }
  }

  // One chunk of `__tfree`'s list: what there is below it and after it, and what its header says.
  lemma TraceSplits(f: Forest, a: Chunk, i: nat)
    requires WellFormed(f) && a in f && i <= |f[a].kids|
    ensures i == |f[a].kids| ==> Tail(f, a, i) == {} && Trace(f, a, i) == []
    ensures i < |f[a].kids| ==>
      var m := f[a].kids[i];
      && m in f && m in Tail(f, a, i) && Tail(f, a, i) == {m} + Tail(f, m, 0) + Tail(f, a, i + 1)
      && m !in Tail(f, m, 0) && m !in Tail(f, a, i + 1) && Tail(f, m, 0) !! Tail(f, a, i + 1)
      && HeaderOf(f, m).child == At(f[m].kids, 0) && HeaderOf(f, m).next == At(f[a].kids, i + 1)
      && Trace(f, a, i) ==
           [Touched(m), Touched(m)] + Trace(f, m, 0) + [Touched(m)] + Trace(f, a, i + 1) + [Freed(m)]
  {
    hide Tail;
    if i == |f[a].kids| {
      TailEnds(f, a);
    } else {
      TailSplits(f, a, i);
      assert KidFits(f, a, i);
    }
  }

  lemma FreesNothing()
    ensures FreesExactly([], {})
  {
  }

  // What lines 171 and 172 do.
  ghost function TraceOfAll(d: Forest, m: Chunk): seq<Event>
    requires WellFormed(d) && m in d
  {
    [Touched(m)] + Trace(d, m, 0) + [Freed(m)]
  }

  lemma TraceFreesAll(d: Forest, m: Chunk)
    requires WellFormed(d) && m in d
    ensures FreesExactly(TraceOfAll(d, m), Subtree(d, m))
  {
    hide FreesExactly, Trace, Tail;
    TraceFrees(d, m, 0);
    TailEnds(d, m);
    FreesAround(m, Trace(d, m, 0), Tail(d, m, 0));
  }

  lemma FreesAround(m: Chunk, t: seq<Event>, s: set<Chunk>)
    requires FreesExactly(t, s) && m !in s
    ensures FreesExactly([Touched(m)] + t + [Freed(m)], {m} + s)
  {
    var w := [Touched(m)] + t + [Freed(m)];
    forall j | 0 <= j < |w|
      ensures w[j] == if j == 0 then Touched(m) else if j <= |t| then t[j - 1] else Freed(m)
    {}
    assert forall j :: 0 <= j < |t| ==> t[j].chunk in s;
    forall c | c in {m} + s ensures Freed(c) in w {
      if Freed(c) in t { var j :| 0 <= j < |t| && t[j] == Freed(c); assert w[j + 1] == Freed(c); }
      assert w[|t| + 1] == Freed(m);
    }
  }

  lemma FreesSubtree(f: Forest, m: Chunk)
    requires WellFormed(f) && m in f
    ensures FreesExactly(TraceOfAll(Detached(f, m), m), Subtree(f, m))
  {
    hide FreesExactly, TraceOfAll;
    TraceFreesAll(Detached(f, m), m);
    SubtreeDetached(f, m);
  }

  // ---------------------------------------------------------------- talloc and trealloc

  // m is new: a childless root, or p's first child; everything else is as before.
  ghost predicate IsAdded(f: Forest, g: Forest, m: Chunk, p: Chunk?) {
    && g.Keys == f.Keys + {m} && m !in f && g[m].kids == [] && g[m].parent == p
    && forall q :: q in f ==>
         g[q].kids == (if q == p then [m] else []) + f[q].kids && g[q].parent == f[q].parent
  }

  lemma NewCanMove(f: Forest, m: Chunk, p: Chunk?)
    requires WellFormed(f) && m !in f && (p == null || p in f) && WellFormed(Planted(f, m))
    ensures CanMove(Planted(f, m), m, p)
  {
    if p != null { NewChunkHasNoneBelow(f, m, p); }
  }

  lemma WithoutNew(f: Forest, m: Chunk, q: Chunk)
    requires WellFormed(f) && m !in f && q in f
    ensures Without(f[q].kids, m) == f[q].kids
  {
    forall i: nat | i < |f[q].kids| ensures f[q].kids[i] != m { assert KidFits(f, q, i); }
    WithoutAbsent(f[q].kids, m);
  }

  lemma AddedShape(f: Forest, g: Forest, m: Chunk, p: Chunk?)
    requires WellFormed(f) && m !in f && (p == null || p in f)
    requires IsMoved(Planted(f, m), g, m, p)
    ensures IsAdded(f, g, m, p)
  {
    forall q | q in f ensures Without(f[q].kids, m) == f[q].kids { WithoutNew(f, m, q); }
    WithoutAbsent([], m);
    assert p != m;
    assert g[m].kids == [] + Without(Planted(f, m)[m].kids, m);
  }

  lemma {:induction false} NewChunkHasNoneBelow(f: Forest, m: Chunk, x: Chunk)
    requires WellFormed(f) && m !in f && x in f && WellFormed(Planted(f, m))
    ensures !Below(Planted(f, m), m, x)
    decreases f[x].rank
  {
    assert PlaceFits(f, x);
    if f[x].parent != null {
      NewChunkHasNoneBelow(f, m, f[x].parent);
    }
  }

  // The memory right after a block has moved from o to n.
  ghost function Copied(h: Memory, o: Chunk, n: Chunk): Memory
    requires o in h
  {
    map c | c in h.Keys - {o} + {n} :: if c == n then h[o] else h[c]
  }

  // The words that lines 116 to 132 rewrite.
  ghost function Patched(h: Memory, o: Chunk, n: Chunk): Memory
    requires n in h
  {
    var w := h[n];
    map c | c in h ::
      Header(if c == w.prev && h[c].child == o then n else h[c].child,
             if c == w.prev && h[c].next == o then n else h[c].next,
             if c == w.child || (w.prev != null && c == w.next) then n else h[c].prev)
  }

  lemma PatchedIsRenamed(f: Forest, o: Chunk, n: Chunk)
    requires WellFormed(f) && o in f && n !in f && WellFormed(Renamed(f, o, n))
    ensures Patched(Copied(Words(f), o, n), o, n) == Words(Renamed(f, o, n))
  {
    var h := Patched(Copied(Words(f), o, n), o, n);
    assert h.Keys == Renamed(f, o, n).Keys;
    forall c | c in h ensures h[c] == HeaderOf(Renamed(f, o, n), c) {
      PatchedHeader(f, o, n, if c == n then o else c);
    }
  }

  lemma PatchedHeader(f: Forest, o: Chunk, n: Chunk, c: Chunk)
    requires WellFormed(f) && o in f && n !in f && c in f && WellFormed(Renamed(f, o, n))
    ensures Patched(Copied(Words(f), o, n), o, n)[Swap(o, n, c)] == HeaderOf(Renamed(f, o, n), Swap(o, n, c))
  {
    RenamedHeader(f, o, n, c);
    PointerDiscipline(f, Words(f), c);
    PointerDiscipline(f, Words(f), o);
  }

  // n has taken o's place everywhere.
  ghost predicate IsRenamed(f: Forest, g: Forest, o: Chunk, n: Chunk) {
    && g.Keys == f.Keys - {o} + {n}
    && forall c :: c in f ==>
         && g[Swap(o, n, c)].kids == SwapAll(o, n, f[c].kids)
         && g[Swap(o, n, c)].parent == Swap(o, n, f[c].parent)
  }

  lemma RenamedShape(f: Forest, o: Chunk, n: Chunk)
    requires o in f && n !in f
    ensures IsRenamed(f, Renamed(f, o, n), o, n)
  {
  }

  predicate IsFirst(mem: Chunk)
    requires mem.prev != null
    reads mem, mem.prev
  {
    mem.prev.next != mem
  }

  class Talloc {
    ghost var live: set<Chunk>
    ghost var forest: Forest
    // What freeing has done so far.
    ghost var log: seq<Event>

    ghost predicate Valid()
      reads this, live
    {
      forest.Keys == live && Represents(forest, Snapshot(live))
    }

    constructor ()
      ensures Valid() && live == {} && forest == map[]
    {
      live := {};
      forest := map[];
      log := [];
    }

    // Only the ghost account of the memory changes.
    ghost method Explain(f: Forest)
      modifies this`forest
      ensures forest == f && live == old(live) && Snapshot(live) == old(Snapshot(live))
    {
      forest := f;
    }

    // C's free: the chunk must be live, and is not afterwards.
    method Free(mem: Chunk)
      requires mem in live
      modifies this`live, this`log
      ensures live == old(live) - {mem} && log == old(log) + [Freed(mem)]
    {
      live := live - {mem};
      log := log + [Freed(mem)];
    }

    // child(mem) and next(mem), of a live chunk.
    method ChildOf(mem: Chunk) returns (child: Chunk?)
      requires mem in live
      modifies this`log
      ensures child == mem.child && log == old(log) + [Touched(mem)]
    {
      child := mem.child;
      log := log + [Touched(mem)];
    }

    method NextOf(mem: Chunk) returns (next: Chunk?)
      requires mem in live
      modifies this`log
      ensures next == mem.next && log == old(log) + [Touched(mem)]
    {
      next := mem.next;
      log := log + [Touched(mem)];
    }

    // assert(prev(mem)); prev(mem) = NULL;
    method ClearPrev(mem: Chunk)
      requires mem in live && mem.prev != null
      modifies mem`prev, this`log
      ensures mem.prev == null && log == old(log) + [Touched(mem)]
    {
      mem.prev := null;
      log := log + [Touched(mem)];
    }

    // ---------------------------------------------------------------- talloc_set_parent

    // The first half: take mem out of its list.
    method Unlink(mem: Chunk)
      requires mem in live && mem.prev != mem && mem.next != mem
      requires (mem.prev != null ==> mem.prev in live) && (mem.next != null ==> mem.next in live)
      modifies live`child, live`next, live`prev
      ensures Snapshot(live) == Unlinked(old(Snapshot(live)), mem)
    {
      if mem.prev != null {
        if mem.next != null {
          mem.next.prev := mem.prev;
        }
        if !IsFirst(mem) {
          mem.prev.next := mem.next;
        }
        if IsFirst(mem) {
          mem.prev.child := mem.next;
        }
      }
      mem.next, mem.prev := null, null;
    }

    // The second half: put mem in front of the new parent's children.
    method LinkFront(mem: Chunk, parent: Chunk)
      requires mem in live && mem.next == null && parent in live && (parent.child != null ==> parent.child in live)
      modifies live`child, live`next, live`prev
      ensures Snapshot(live) == Linked(old(Snapshot(live)), mem, parent)
    {
      if parent.child != null {
        mem.next := parent.child;
        parent.child.prev := mem;
      }
      mem.prev := parent;
      parent.child := mem;
    }

    /** Moves mem with everything below it to the front of parent's children, or makes it a root.
        The result is a forest exactly when `CanMove` holds of the old one. */
    method SetParent(mem: Chunk?, parent: Chunk?)
      requires Valid() && (mem != null ==> mem in live) && (parent != null ==> parent in live)
      modifies live`child, live`next, live`prev, this`forest
      ensures live == old(live)
      ensures mem == null ==> forest == old(forest) && Snapshot(live) == old(Snapshot(live))
      ensures mem != null ==> Snapshot(live) == MovedMemory(old(forest), mem, parent)
      ensures mem != null && old(CanMove(forest, mem, parent)) ==>
                Valid() && IsMoved(old(forest), forest, mem, parent)
    {
      if mem == null {
        return;
      }
      ghost var f, h := forest, Words(forest);
      assert mem.prev != mem && mem.next != mem
             && (mem.prev != null ==> mem.prev in live) && (mem.next != null ==> mem.next in live) by {
        SameChunks(f, live);
        PointerDiscipline(f, h, mem);
      }
      Unlink(mem);
      assert Snapshot(live) == Clobbered(f, mem) by { UnlinkedIsClobbered(f, mem); }
      if parent != null {
        assert mem.next == null && (parent.child != null ==> parent.child in live) by {
          assert Snapshot(live)[mem] == Clobbered(f, mem)[mem] && Snapshot(live)[parent] == Clobbered(f, mem)[parent];
          ClobberedChild(f, mem, parent);
        }
        LinkFront(mem, parent);
      }
      MoveShape(f, mem, parent);
      if CanMove(f, mem, parent) {
        MoveMakesForest(f, mem, parent);
      }
      Explain(MovedForest(f, mem, parent));
    }

    // ---------------------------------------------------------------- talloc_get_parent

    method GetParent(mem: Chunk?) returns (parent: Chunk?)
      requires Valid() && (mem != null ==> mem in live)
      ensures parent == if mem == null then null else forest[mem].parent
    {
      if mem == null {
        return null;
      }
      SameChunks(forest, live);
      PointerDiscipline(forest, Words(forest), mem);
      if mem.prev == null {
        return null;
      }
      var m := mem;
      while !IsFirst(m)
        invariant m in live && m.prev != null && forest[m].parent == forest[mem].parent
        decreases forest[m].pos
      {
        ParentByPointers(forest, Words(forest), m);
        m := m.prev;
      }
      ParentByPointers(forest, Words(forest), m);
      return m.prev;
    }

    // ---------------------------------------------------------------- talloc_steal

    // The walk to the last child of m.
    method LastSibling(first: Chunk, ghost f: Forest, ghost m: Chunk) returns (last: Chunk)
      requires WellFormed(f) && m in f && f[m].kids != [] && first == f[m].kids[0]
      requires live == f.Keys && Snapshot(live) == Clobbered(f, m)
      ensures last == f[m].kids[|f[m].kids| - 1]
    {
      last := first;
      ghost var j := 0;
      ClobberedKids(f, m, 0);
      while last.next != null
        invariant j < |f[m].kids| && last == f[m].kids[j]
        invariant last in live && Snapshot(live)[last].next == At(f[m].kids, j + 1)
        decreases |f[m].kids| - j
      {
        last, j := last.next, j + 1;
        ClobberedKids(f, m, j);
      }
    }

    method Join(last: Chunk, first: Chunk)
      requires last in live && first in live
      modifies live`child, live`next, live`prev
      ensures Snapshot(live) == Joined(old(Snapshot(live)), last, first)
    {
      first.prev := last;
      last.next := first;
    }

    method Attach(mem: Chunk, parent: Chunk?)
      requires mem in live && mem.child != null && mem.child in live && (parent != null ==> parent in live)
      modifies live`child, live`next, live`prev
      ensures Snapshot(live) == Attached(old(Snapshot(live)), mem, parent)
    {
      if parent != null {
        parent.child := mem.child;
      }
      mem.child.prev := parent;
      mem.child := null;
    }

    // From line 253 on: m's children go to the new parent.
    method HandOver(mem: Chunk, parent: Chunk?, ghost f: Forest)
      requires WellFormed(f) && mem in f && (parent == null || parent in f)
      requires live == f.Keys && Snapshot(live) == Clobbered(f, mem)
      modifies live`child, live`next, live`prev
      ensures Snapshot(live) == StolenMemory(f, mem, parent)
    {
      assert Snapshot(live)[mem].child == At(f[mem].kids, 0) by { ClobberedKids(f, mem, 0); }
      if mem.child == null {
        return;
      }
      ghost var k := |f[mem].kids| - 1;
      ClobberedKids(f, mem, 0);
      ClobberedKids(f, mem, k);
      StolenInSteps(f, mem, parent);
      if parent != null {
        assert Snapshot(live)[parent].child == Clobbered(f, mem)[parent].child;
        if parent.child != null {
          ClobberedChild(f, mem, parent);
          var last := LastSibling(mem.child, f, mem);
          Join(last, parent.child);
          assert Snapshot(live)[mem].child == mem.child;
        }
      }
      Attach(mem, parent);
    }

    /** Makes mem a childless root and puts its children in front of parent's, or cuts them loose.
        The result is a forest exactly when `CanSteal` holds of the old one. */
    method Steal(mem: Chunk?, parent: Chunk?)
      requires Valid() && (mem != null ==> mem in live) && (parent != null ==> parent in live)
      modifies live`child, live`next, live`prev, this`forest
      ensures live == old(live)
      ensures mem == null ==> forest == old(forest) && Snapshot(live) == old(Snapshot(live))
      ensures mem != null ==> Snapshot(live) == StolenMemory(old(forest), mem, parent)
      ensures mem != null && old(CanSteal(forest, mem, parent)) ==>
                Valid() && IsStolen(old(forest), forest, mem, parent)
    {
      if mem == null {
        return;
      }
      ghost var f := forest;
      SetParent(mem, null);
      HandOver(mem, parent, f);
      if CanSteal(f, mem, parent) {
        StealMakesForest(f, mem, parent);
        StealShape(f, mem, parent);
      }
      Explain(StolenForest(f, mem, parent));
    }

    // ---------------------------------------------------------------- tfree

    /** `__tfree`: frees mem, the siblings to its right and everything below them, each once and never
        touched afterwards (`TraceFrees`); the C assert on `prev` holds every time. */
    method FreeBelow(mem: Chunk?, ghost f: Forest, ghost a: Chunk, ghost i: nat)
      requires WellFormed(f) && a in f && i <= |f[a].kids| && mem == At(f[a].kids, i)
      requires Tail(f, a, i) <= live
      requires forall x :: x in Tail(f, a, i) ==>
                 x.child == HeaderOf(f, x).child && x.next == HeaderOf(f, x).next && x.prev != null
      modifies this`live, this`log, Tail(f, a, i)`prev
      ensures live == old(live) - Tail(f, a, i)
      ensures log == old(log) + Trace(f, a, i)
      decreases Tail(f, a, i)
    {
      hide Tail, HeaderOf, Trace, WellFormed;
      TraceSplits(f, a, i);
      if mem == null {
        return;
      }
      ghost var before := log;
      ClearPrev(mem);
      var child := ChildOf(mem);
      FreeBelow(child, f, mem, 0);
      var next := NextOf(mem);
      FreeBelow(next, f, a, i + 1);
      Free(mem);
      assert log == before + Trace(f, a, i);
    }

    // Lines 171 and 172.
    method Fell(mem: Chunk, ghost f: Forest)
      requires WellFormed(f) && mem in f && live == f.Keys && Snapshot(live) == Clobbered(f, mem)
      modifies live`prev, this`live, this`log
      ensures live == old(live) - Subtree(f, mem)
      ensures Snapshot(live) == FelledMemory(f, mem)
      ensures log == old(log) + TraceOfAll(Detached(f, mem), mem)
    {
      hide Detached, HeaderOf, Below, Branch, ClobberedHeader;
      ghost var d, h := Detached(f, mem), Snapshot(live);
      SubtreeDetached(f, mem);
      TailEnds(d, mem);
      TailIntact(f, mem, h);
      assert h[mem].child == At(d[mem].kids, 0) by { ClobberedKids(f, mem, 0); }
      var child := ChildOf(mem);
      FreeBelow(child, d, mem, 0);
      Free(mem);
      forall c | c in live ensures Header(c.child, c.next, c.prev) == ClobberedHeader(f, mem, c) {
        assert h[c] == Clobbered(f, mem)[c];
      }
    }

    /** Frees mem and everything below it, and nothing else.  What is left is a forest, the old one
        without that subtree, exactly when mem detaches cleanly. */
    method TFree(mem: Chunk?) returns (r: Chunk?)
      requires Valid() && (mem != null ==> mem in live)
      modifies live`child, live`next, live`prev, this`forest, this`live, this`log
      ensures r == null
      ensures mem == null ==> log == old(log)
      ensures mem != null ==> old(|log|) <= |log| && log[..old(|log|)] == old(log)
                              && FreesExactly(log[old(|log|)..], Subtree(old(forest), mem))
      ensures mem == null ==> live == old(live) && forest == old(forest) && Snapshot(live) == old(Snapshot(live))
      ensures mem != null ==> live == old(live) - Subtree(old(forest), mem)
                              && Snapshot(live) == FelledMemory(old(forest), mem)
      ensures mem != null && old(DetachesCleanly(Words(forest), mem)) ==>
                && Valid()
                && (forall q :: q in live ==>
                      forest[q].kids == Without(old(forest)[q].kids, mem) && forest[q].parent == old(forest)[q].parent)
    {
      if mem == null {
        return null;
      }
      ghost var f, before := forest, log;
      hide FreesExactly, TraceOfAll, FelledForest, IsMoved, Subtree, Without, FelledMemory, WellFormed, Words;
      SetParent(mem, null);
      Fell(mem, f);
      FreesSubtree(f, mem);
      assert log[|before|..] == TraceOfAll(Detached(f, mem), mem);
      FellShape(f, mem);
      if DetachesCleanly(Words(f), mem) {
        FellMakesForest(f, mem);
      }
      Explain(FelledForest(f, mem));
      return null;
    }

    // ---------------------------------------------------------------- talloc, tzalloc

    /** `talloc_init`: a raw block, or null when the allocation failed, becomes parent's new first
        child or a new root. */
    method Init(mem: Chunk?, parent: Chunk?) returns (r: Chunk?)
      requires Valid() && (parent != null ==> parent in live) && (mem != null ==> mem !in live)
      modifies live`child, live`next, live`prev, mem, this`forest, this`live
      ensures Valid() && r == mem
      ensures mem == null ==> forest == old(forest)
      ensures mem != null ==> IsAdded(old(forest), forest, mem, parent)
    {
      if mem == null {
        return null;
      }
      ghost var f := forest;
      mem.child, mem.next, mem.prev := null, null, null;
      Admit(mem);
      NewCanMove(f, mem, parent);
      SetParent(mem, parent);
      AddedShape(f, forest, mem, parent);
      return mem;
    }

    // The live chunks and mem, whose header is all null, are a forest with one more root.
    ghost method Admit(mem: Chunk)
      requires mem !in live && forest.Keys == live && Represents(forest, Snapshot(live))
      requires mem.child == mem.next == mem.prev == null
      modifies this`forest, this`live
      ensures Valid() && forest == Planted(old(forest), mem)
    {
      PlantedForest(forest, mem);
      assert Snapshot(live + {mem}) == Snapshot(live)[mem := Header(null, null, null)];
      live := live + {mem};
      forest := Planted(forest, mem);
    }

    method TAlloc(granted: bool, parent: Chunk?) returns (r: Chunk?)
      requires Valid() && (parent != null ==> parent in live)
      modifies live`child, live`next, live`prev, this`forest, this`live
      ensures Valid() && (r != null <==> granted)
      ensures !granted ==> forest == old(forest)
      ensures granted ==> fresh(r) && IsAdded(old(forest), forest, r, parent)
    {
      var raw: Chunk? := null;
      if granted {
        raw := new Chunk.Block();
      }
      r := Init(raw, parent);
    }

    // ---------------------------------------------------------------- trealloc

    ghost method AdmitCopy(mem: Chunk, usr: Chunk, h: Memory)
      requires usr in h && mem !in h && live == h.Keys - {usr}
      requires Header(mem.child, mem.next, mem.prev) == h[usr]
      requires forall c :: c in live ==> Header(c.child, c.next, c.prev) == h[c]
      modifies this`live
      ensures live == old(live) + {mem} && Snapshot(live) == Copied(h, usr, mem)
    {
      assert Snapshot(live + {mem}) == Copied(h, usr, mem);
      live := live + {mem};
    }

    // Lines 116 to 132: every word that named usr names mem instead.
    method Patch(mem: Chunk, usr: Chunk)
      requires mem in live && usr !in live && mem.child != mem && mem.next != mem && mem.prev != mem
      requires (mem.child != null ==> mem.child in live) && (mem.next != null ==> mem.next in live)
      requires mem.prev != null ==> mem.prev in live
      modifies live`child, live`next, live`prev
      ensures Snapshot(live) == Patched(old(Snapshot(live)), usr, mem)
    {
      if mem.child != null {
        mem.child.prev := mem;
      }
      if mem.prev != null {
        if mem.next != null {
          mem.next.prev := mem;
        }
        if mem.prev.next == usr {
          mem.prev.next := mem;
        }
        if mem.prev.child == usr {
          mem.prev.child := mem;
        }
      }
    }

    method TRealloc(usr: Chunk?, outcome: Resize) returns (r: Chunk?)
      requires Valid() && (usr != null ==> usr in live)
      modifies live`child, live`next, live`prev, this`forest, this`live, this`log
      ensures Valid()
      ensures outcome.Failed? ==> r == null && forest == old(forest)
      ensures usr != null && outcome.InPlace? ==> r == usr && forest == old(forest)
      ensures usr != null && outcome.Moved? ==>
                r != null && fresh(r) && IsRenamed(old(forest), forest, usr, r)
      ensures usr == null && !outcome.Failed? ==>
                r != null && fresh(r) && IsAdded(old(forest), forest, r, null)
    {
      if usr == null || outcome.Failed? {
        var raw: Chunk? := null;
        if !outcome.Failed? {
          raw := new Chunk.Block();
        }
        r := Init(raw, null);
        return;
      }
      if outcome.InPlace? {
        return usr;
      }
      r := Relocate(usr);
    }

    // A moving realloc: a new block with the old contents, and the old block freed.
    method MoveBlock(usr: Chunk) returns (mem: Chunk)
      requires usr in live
      modifies this`live, this`log
      ensures fresh(mem) && live == old(live) - {usr} + {mem}
      ensures Snapshot(live) == Copied(old(Snapshot(live)), usr, mem)
    {
      ghost var h := Snapshot(live);
      mem := new Chunk.Block();
      mem.child, mem.next, mem.prev := usr.child, usr.next, usr.prev;
      Free(usr);
      AdmitCopy(mem, usr, h);
    }

    // A moved block, then lines 112 to 132.
    method Relocate(usr: Chunk) returns (mem: Chunk)
      requires Valid() && usr in live
      modifies live`child, live`next, live`prev, this`forest, this`live, this`log
      ensures Valid() && fresh(mem) && IsRenamed(old(forest), forest, usr, mem)
    {
      ghost var f, h := forest, Words(forest);
      PointerDiscipline(f, h, usr);
      mem := MoveBlock(usr);
      assert Snapshot(live)[mem] == h[usr];
      Patch(mem, usr);
      RenamedForest(f, usr, mem);
      RenamedShape(f, usr, mem);
      PatchedIsRenamed(f, usr, mem);
      Explain(Renamed(f, usr, mem));
    }
  }
}
