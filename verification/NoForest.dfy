/** Memories that no forest explains.

    `talloc_set_parent` tests "is mem a first child" a second time after it has already unlinked
    mem from its left sibling (deps/talloc/talloc.c:218), so a chunk that is not first also has
    its right sibling written into the left sibling's `child` word.  This module says what that
    leaves behind and when it is harmless, and it treats moves of a chunk below itself.
  */
module NoForest {
  import opened Forests
  import opened ForestMoves

  // ---------------------------------------------------------------- local damage

  // The words of l and c contradict each other, or c is a root with a right sibling.
  ghost predicate Broken(h: Memory, l: Chunk, c: Chunk) {
    l in h && c in h &&
    (|| (h[l].next == c && (h[c].prev != l || h[l].child == c || h[l].prev == null))
     || (h[c].prev == l && h[l].next != c && h[l].child != c))
  }

  lemma BrokenIsNoForest(h: Memory, l: Chunk, c: Chunk, g: Forest)
    requires Broken(h, l, c)
    ensures !Represents(g, h)
  {
    if Represents(g, h) {
      PointerDiscipline(g, h, l);
      PointerDiscipline(g, h, c);
    }
  }

  // ---------------------------------------------------------------- what detaching leaves

  /** What the caller can look at: mem is a root, or a first child, or it is a last child whose
      left sibling has no children. */
  ghost predicate DetachesCleanly(h: Memory, m: Chunk)
    requires m in h
  {
    var l := h[m].prev;
    l == null || (l in h && (h[l].next == m ==> h[m].next == null && h[l].child == null))
  }

  // The memory of the detached forest, but for the left sibling's `child` word.
  ghost function Clobbered(f: Forest, m: Chunk): Memory
    requires WellFormed(f) && m in f
  {
    map c | c in f :: ClobberedHeader(f, m, c)
  }

  ghost function ClobberedHeader(f: Forest, m: Chunk, c: Chunk): Header
    requires WellFormed(f) && m in f && c in f
  {
    var now := HeaderOf(Detached(f, m), c);
    if HeaderOf(f, m).prev == c && HeaderOf(f, c).next == m then now.(child := HeaderOf(f, m).next) else now
  }

  /** The words after the first half of `talloc_set_parent`: whether or not mem was first, the
      chunk to its left ends up with mem's right sibling as its child. */
  ghost function Unlinked(h: Memory, m: Chunk): Memory
    requires m in h && (h[m].prev != null ==> h[m].prev in h)
  {
    var l, r := h[m].prev, h[m].next;
    map c | c in h ::
      Header(if c == l then r else h[c].child,
             if c == m then null else if c == l && h[l].next == m then r else h[c].next,
             if c == m then null else if l != null && c == r then l else h[c].prev)
  }

  lemma UnlinkedIsClobbered(f: Forest, m: Chunk)
    requires WellFormed(f) && m in f
    requires Words(f)[m].prev != null ==> Words(f)[m].prev in f
    ensures Unlinked(Words(f), m) == Clobbered(f, m)
  {
    forall c | c in f
      ensures Unlinked(Words(f), m)[c] == ClobberedHeader(f, m, c)
    {
      UnlinkedHeader(f, m, c);
    }
  }

  lemma UnlinkedHeader(f: Forest, m: Chunk, c: Chunk)
    requires WellFormed(f) && m in f && c in f
    requires Words(f)[m].prev != null ==> Words(f)[m].prev in f
    ensures Unlinked(Words(f), m)[c] == ClobberedHeader(f, m, c)
  {
    PointerDiscipline(f, Words(f), m);
    PointerDiscipline(f, Words(f), c);
    DetachedHeader(f, m, c);
  }

  // The words after the first half if line 218 were the `else` of line 215.
  ghost function UnlinkedOnce(h: Memory, m: Chunk): Memory
    requires m in h && (h[m].prev != null ==> h[m].prev in h)
  {
    var l, r := h[m].prev, h[m].next;
    map c | c in h ::
      Header(if c == l && h[l].next != m then r else h[c].child,
             if c == m then null else if c == l && h[l].next == m then r else h[c].next,
             if c == m then null else if l != null && c == r then l else h[c].prev)
  }

  // With exclusive branches every chunk can be detached.
  lemma ExclusiveUnlinkDetaches(f: Forest, m: Chunk)
    requires WellFormed(f) && m in f
    requires Words(f)[m].prev != null ==> Words(f)[m].prev in f
    ensures UnlinkedOnce(Words(f), m) == Words(Detached(f, m))
  {
    forall c | c in f
      ensures UnlinkedOnce(Words(f), m)[c] == HeaderOf(Detached(f, m), c)
    {
      OnceHeader(f, m, c);
    }
  }

  lemma OnceHeader(f: Forest, m: Chunk, c: Chunk)
    requires WellFormed(f) && m in f && c in f
    requires Words(f)[m].prev != null ==> Words(f)[m].prev in f
    ensures UnlinkedOnce(Words(f), m)[c] == HeaderOf(Detached(f, m), c)
  {
    hide Detached;
    PointerDiscipline(f, Words(f), m);
    PointerDiscipline(f, Words(f), c);
    DetachedHeader(f, m, c);
  }

  // Two chunks that witness the damage when there is some.
  ghost function Witness(f: Forest, m: Chunk): (w: (Chunk, Chunk))
    requires WellFormed(f) && m in f && !DetachesCleanly(Words(f), m)
    ensures w.0 in f && w.1 in f && w.0 == HeaderOf(f, m).prev && w.0 != m && w.1 != m
    ensures HeaderOf(f, w.0).next == m
    ensures w.1 == if HeaderOf(f, m).next != null then HeaderOf(f, m).next else HeaderOf(f, w.0).child
    ensures !Below(f, m, w.0) && !Below(f, m, w.1)
  {
    PointerDiscipline(f, Words(f), m);
    var l := HeaderOf(f, m).prev;
    PointerDiscipline(f, Words(f), l);
    SiblingsNotBelow(f, m, l);
    assert PlaceFits(f, m);
    if HeaderOf(f, m).next != null then
      assert KidFits(f, f[m].parent, f[m].pos + 1);
      SiblingsNotBelow(f, m, HeaderOf(f, m).next);
      (l, HeaderOf(f, m).next)
    else
      assert KidFits(f, l, 0);
      NotBelowAbove(f, m, m);
      (l, HeaderOf(f, l).child)
  }

  lemma SiblingsNotBelow(f: Forest, m: Chunk, x: Chunk)
    requires WellFormed(f) && m in f && x in f
    requires (HeaderOf(f, m).prev == x && HeaderOf(f, x).next == m) || HeaderOf(f, m).next == x
    ensures !Below(f, m, x) && x != m && f[x].parent == f[m].parent && f[x].parent != null
  {
    PointerDiscipline(f, Words(f), m);
    PointerDiscipline(f, Words(f), x);
    assert PlaceFits(f, m) && PlaceFits(f, x);
    assert KidFits(f, f[m].parent, f[m].pos + 1);
    if f[m].pos > 0 { assert KidFits(f, f[m].parent, f[m].pos - 1); }
    NotBelowAbove(f, m, f[m].parent);
  }

  lemma CleanDetach(f: Forest, m: Chunk)
    requires WellFormed(f) && m in f && DetachesCleanly(Words(f), m)
    ensures Clobbered(f, m) == Words(Detached(f, m))
  {
    var l := HeaderOf(f, m).prev;
    if l != null {
      DetachedHeader(f, m, l);
      PointerDiscipline(f, Words(f), m);
    }
  }

  lemma DirtyDetach(f: Forest, m: Chunk)
    requires WellFormed(f) && m in f && !DetachesCleanly(Words(f), m)
    ensures Broken(Clobbered(f, m), Witness(f, m).0, Witness(f, m).1)
  {
    var (l, c) := Witness(f, m);
    DetachedHeader(f, m, l);
    DetachedHeader(f, m, c);
    PointerDiscipline(f, Words(f), m);
    PointerDiscipline(f, Words(f), l);
    PointerDiscipline(f, Words(f), c);
  }

  // ---------------------------------------------------------------- linking m in front of p's children

  ghost function Linked(h: Memory, m: Chunk, p: Chunk): Memory
    requires p in h
  {
    map c | c in h ::
      Header(if c == p then m else h[c].child,
             if c == m then h[p].child else h[c].next,
             if c == m then p else if c == h[p].child then m else h[c].prev)
  }

  lemma LinkedIsPushed(f: Forest, m: Chunk, p: Chunk)
    requires WellFormed(f) && m in f && p in f && f[m].parent == null && !Under(f, m, p)
    requires WellFormed(Pushed(f, m, p))
    ensures Linked(Words(f), m, p) == Words(Pushed(f, m, p))
  {
    forall c | c in f
      ensures Linked(Words(f), m, p)[c] == HeaderOf(Pushed(f, m, p), c)
    {
      PushedHeader(f, m, p, c);
    }
  }

  lemma BrokenAfterLink(f: Forest, m: Chunk, p: Chunk)
    requires WellFormed(f) && m in f && p in f && !DetachesCleanly(Words(f), m)
    ensures Broken(Linked(Clobbered(f, m), m, p), Witness(f, m).0, Witness(f, m).1)
  {
    var (l, c) := Witness(f, m);
    DirtyDetach(f, m);
    DetachedHeader(f, m, l);
    DetachedHeader(f, m, c);
    DetachedHeader(f, m, p);
    PointerDiscipline(f, Words(f), m);
    PointerDiscipline(f, Words(f), l);
    PointerDiscipline(f, Words(f), p);
    PointerDiscipline(f, Words(f), c);
  }

  // ---------------------------------------------------------------- cycles

  // How `talloc_get_parent` finds a parent, one step.
  lemma ParentByPointers(g: Forest, h: Memory, c: Chunk)
    requires Represents(g, h) && c in h && h[c].prev != null
    ensures h[c].prev in h
    ensures g[c].parent == if h[h[c].prev].next == c then g[h[c].prev].parent else h[c].prev
    ensures h[h[c].prev].next == c ==> h[h[c].prev].prev != null && g[h[c].prev].pos < g[c].pos
  {
    PointerDiscipline(g, h, c);
    PointerDiscipline(g, h, h[c].prev);
    assert PlaceFits(g, c);
    if g[c].pos > 0 { assert KidFits(g, g[c].parent, g[c].pos - 1); }
  }

  // In any forest g for the linked memory, everyone but m keeps the parent it had.
  lemma {:induction false} LinkedParents(f: Forest, m: Chunk, p: Chunk, g: Forest, x: Chunk)
    requires WellFormed(f) && m in f && p in f && f[m].parent == null
    requires Represents(g, Linked(Words(f), m, p))
    requires x in f && (x == m || f[x].parent != null)
    ensures x in g && g[x].parent == if x == m then p else f[x].parent
    decreases if x == m then 0 else f[x].pos + 1
  {
    var h := Linked(Words(f), m, p);
    assert h.Keys == f.Keys;
    PointerDiscipline(f, Words(f), x);
    ParentByPointers(g, h, x);
    if x == m {
      PointerDiscipline(f, Words(f), p);
    } else {
      assert PlaceFits(f, x) && KidFits(f, p, 0);
      if x == h[m].next {
        LinkedParents(f, m, p, g, m);
      } else if f[x].pos > 0 {
        assert KidFits(f, f[x].parent, f[x].pos - 1);
        LinkedParents(f, m, p, g, f[f[x].parent].kids[f[x].pos - 1]);
      }
    }
  }

  lemma {:induction false} LinkedRanks(f: Forest, m: Chunk, p: Chunk, g: Forest, x: Chunk)
    requires WellFormed(f) && m in f && p in f && f[m].parent == null
    requires Represents(g, Linked(Words(f), m, p))
    requires x in f && Under(f, m, x)
    ensures m in g && x in g && g[m].rank <= g[x].rank
    decreases f[x].rank
  {
    LinkedParents(f, m, p, g, m);
    if x != m {
      assert PlaceFits(f, x);
      LinkedParents(f, m, p, g, x);
      LinkedRanks(f, m, p, g, f[x].parent);
      assert PlaceFits(g, x);
    }
  }

  lemma LinkedCycle(f: Forest, m: Chunk, p: Chunk, g: Forest)
    requires WellFormed(f) && m in f && p in f && f[m].parent == null && Under(f, m, p)
    ensures !Represents(g, Linked(Words(f), m, p))
  {
    if Represents(g, Linked(Words(f), m, p)) {
      LinkedParents(f, m, p, g, m);
      assert PlaceFits(g, m);
      LinkedRanks(f, m, p, g, p);
    }
  }

  // ---------------------------------------------------------------- splicing m's children before p's

  ghost function Spliced(h: Memory, m: Chunk, p: Chunk, last: Chunk): Memory
    requires m in h && p in h
  {
    map c | c in h ::
      Header(if c == m then null else if c == p then h[m].child else h[c].child,
             if c == last then h[p].child else h[c].next,
             if c == h[m].child then p else if c == h[p].child then last else h[c].prev)
  }

  // The children of m cut loose: only the first one's `prev` is cleared.
  ghost function Loosened(h: Memory, m: Chunk): Memory
    requires m in h
  {
    map c | c in h ::
      Header(if c == m then null else h[c].child, h[c].next, if c == h[m].child then null else h[c].prev)
  }

  lemma SplicedIsAdopted(f: Forest, m: Chunk, p: Chunk)
    requires WellFormed(f) && m in f && p in f && f[m].parent == null && !Under(f, m, p)
    requires WellFormed(Adopted(f, m, p)) && f[m].kids != []
    ensures Spliced(Words(f), m, p, f[m].kids[|f[m].kids| - 1]) == Words(Adopted(f, m, p))
  {
    forall c | c in f
      ensures Spliced(Words(f), m, p, f[m].kids[|f[m].kids| - 1])[c] == HeaderOf(Adopted(f, m, p), c)
    {
      AdoptedHeader(f, m, p, c);
    }
  }

  lemma LoosenedIsReleased(f: Forest, m: Chunk)
    requires WellFormed(f) && m in f && |f[m].kids| <= 1 && WellFormed(Released(f, m))
    ensures Loosened(Words(f), m) == Words(Released(f, m))
  {
    ReleasedForest(f, m);
    forall c | c in f
      ensures Loosened(Words(f), m)[c] == HeaderOf(Released(f, m), c)
    {
    }
  }

  lemma BrokenAfterLoosen(f: Forest, m: Chunk)
    requires WellFormed(f) && m in f && !DetachesCleanly(Words(f), m)
    ensures Broken(Loosened(Clobbered(f, m), m), Witness(f, m).0, Witness(f, m).1)
  {
    var (l, c) := Witness(f, m);
    DirtyDetach(f, m);
    DetachedHeader(f, m, l);
    DetachedHeader(f, m, c);
    DetachedHeader(f, m, m);
    PointerDiscipline(f, Words(f), m);
    PointerDiscipline(f, Words(f), l);
    PointerDiscipline(f, Words(f), c);
  }

  lemma BrokenWhenLoosened(f: Forest, m: Chunk)
    requires WellFormed(f) && m in f && |f[m].kids| > 1
    ensures var k := f[m].kids[0];
      k in f && HeaderOf(f, k).next != null && Broken(Loosened(Words(f), m), k, f[m].kids[1])
  {
    var k, r := f[m].kids[0], f[m].kids[1];
    assert KidFits(f, m, 0) && KidFits(f, m, 1);
    assert HeaderOf(f, k).next == r;
    NotBelowAbove(f, m, m);
    assert PlaceFits(f, k);
  }

  lemma BrokenAfterSplice(f: Forest, m: Chunk, p: Chunk, last: Chunk)
    requires WellFormed(f) && m in f && p in f && !DetachesCleanly(Words(f), m)
    requires last in f && f[last].parent == m
    ensures Broken(Spliced(Clobbered(f, m), m, p, last), Witness(f, m).0, Witness(f, m).1)
  {
    var (l, c) := Witness(f, m);
    DirtyDetach(f, m);
    DetachedHeader(f, m, l);
    DetachedHeader(f, m, c);
    DetachedHeader(f, m, p);
    DetachedHeader(f, m, m);
    PointerDiscipline(f, Words(f), m);
    PointerDiscipline(f, Words(f), l);
    PointerDiscipline(f, Words(f), p);
    PointerDiscipline(f, Words(f), c);
  }

  // m's children handed to m itself: the first one points at a childless m.
  lemma BrokenWhenSelf(f: Forest, m: Chunk, last: Chunk)
    requires WellFormed(f) && m in f && f[m].parent == null && f[m].kids != []
    requires last == f[m].kids[|f[m].kids| - 1]
    ensures f[m].kids[0] in f && Broken(Spliced(Words(f), m, m, last), m, f[m].kids[0])
  {
    assert KidFits(f, m, 0) && KidFits(f, m, |f[m].kids| - 1);
  }

  // Where the spliced memory sends a non-root that looks to its left.
  lemma SplicedBack(f: Forest, m: Chunk, p: Chunk, x: Chunk)
    requires WellFormed(f) && m in f && p in f && f[m].parent == null && f[m].kids != [] && p != m
    requires x in f && f[x].parent in f && f[x].pos < |f[f[x].parent].kids|
    ensures var q, last := f[x].parent, f[m].kids[|f[m].kids| - 1];
      var h := Spliced(Words(f), m, p, last);
      var b := if f[x].pos > 0 then f[q].kids[f[x].pos - 1] else if q == p then last else if q == m then p else q;
      && h.Keys == f.Keys && b in f && h[x].prev == b
      && (h[b].next == x <==> f[x].pos > 0 || q == p)
      && (f[x].pos > 0 || q == p ==> f[b].parent == if f[x].pos > 0 then q else m)
      && (f[x].pos > 0 ==> f[b].pos < f[x].pos)
  {
    var q, k := f[x].parent, |f[m].kids| - 1;
    assert PlaceFits(f, x) && KidFits(f, m, k) && KidFits(f, m, 0) && KidFits(f, p, 0);
    PointerDiscipline(f, Words(f), x);
    if f[x].pos > 0 {
      assert KidFits(f, q, f[x].pos - 1);
    } else if q == m {
      PointerDiscipline(f, Words(f), p);
    } else {
      PointerDiscipline(f, Words(f), q);
    }
  }

  lemma {:induction false} SplicedParents(f: Forest, m: Chunk, p: Chunk, g: Forest, x: Chunk)
    requires WellFormed(f) && m in f && p in f && f[m].parent == null && f[m].kids != [] && p != m
    requires Represents(g, Spliced(Words(f), m, p, f[m].kids[|f[m].kids| - 1]))
    requires x in f && f[x].parent != null
    ensures x in g && g[x].parent == if f[x].parent == m then p else f[x].parent
    decreases if f[x].parent == m then 0 else 1, f[x].pos
  {
    var q, last := f[x].parent, f[m].kids[|f[m].kids| - 1];
    assert PlaceFits(f, x);
    SplicedBack(f, m, p, x);
    ParentByPointers(g, Spliced(Words(f), m, p, last), x);
    if f[x].pos > 0 {
      SplicedParents(f, m, p, g, f[q].kids[f[x].pos - 1]);
    } else if q == p {
      SplicedParents(f, m, p, g, last);
    }
  }

  lemma {:induction false} SplicedRanks(f: Forest, m: Chunk, p: Chunk, g: Forest, x: Chunk)
    requires WellFormed(f) && m in f && p in f && f[m].parent == null && f[m].kids != [] && p != m
    requires Represents(g, Spliced(Words(f), m, p, f[m].kids[|f[m].kids| - 1]))
    requires x in f && Below(f, m, x)
    ensures p in g && x in g && g[p].rank < g[x].rank
    decreases f[x].rank
  {
    assert PlaceFits(f, x);
    SplicedParents(f, m, p, g, x);
    assert PlaceFits(g, x);
    if f[x].parent != m {
      SplicedRanks(f, m, p, g, f[x].parent);
    }
  }

  lemma SplicedCycle(f: Forest, m: Chunk, p: Chunk, g: Forest)
    requires WellFormed(f) && m in f && p in f && f[m].parent == null && f[m].kids != [] && Below(f, m, p)
    ensures !Represents(g, Spliced(Words(f), m, p, f[m].kids[|f[m].kids| - 1]))
  {
    NotBelowAbove(f, m, m);
    if Represents(g, Spliced(Words(f), m, p, f[m].kids[|f[m].kids| - 1])) {
      SplicedRanks(f, m, p, g, p);
    }
  }
}
