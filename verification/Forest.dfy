/** The meaning of talloc's three words per chunk: an ordered forest.

    Every chunk header holds `child`, `next` and `prev`; `prev` is the left sibling, or the
    parent of a first child, or null for a root.  A `Forest` names the shape the words stand
    for, and `Words` computes the only header contents that stand for it.
  */
module Forests {

  class Chunk {
    var child: Chunk?
    var next: Chunk?
    var prev: Chunk?

    // A block fresh from malloc: nothing is promised about its words.
    constructor Block() {
    }
  }

  datatype Header = Header(child: Chunk?, next: Chunk?, prev: Chunk?)

  // A snapshot of the headers of all live chunks.
  type Memory = map<Chunk, Header>

  /** One chunk's place in the forest: its child list, in order; its parent (null for a root) and
      its index in the parent's list; a rank that grows from parent to child, so that no chunk is
      its own ancestor. */
  datatype Node = Node(kids: seq<Chunk>, parent: Chunk?, pos: nat, rank: nat)

  type Forest = map<Chunk, Node>

  // The i-th child of p knows its place.
  ghost predicate KidFits(f: Forest, p: Chunk, i: nat) {
    p in f && i < |f[p].kids| ==>
      var k := f[p].kids[i]; k in f && f[k].parent == p && f[k].pos == i
  }

  // A chunk with a parent is listed there, and ranks higher.
  ghost predicate PlaceFits(f: Forest, c: Chunk) {
    c in f && f[c].parent != null ==>
      var p := f[c].parent; p in f && f[c].pos < |f[p].kids| && f[p].kids[f[c].pos] == c && f[p].rank < f[c].rank
  }

  // The quantifiers are instantiated by hand, by mentioning the fact that is needed.
  ghost predicate WellFormed(f: Forest) {
    && (forall p, i {:trigger KidFits(f, p, i)} :: p in f ==> KidFits(f, p, i))
    && (forall c {:trigger PlaceFits(f, c)} :: c in f ==> PlaceFits(f, c))
  }

  // The chunk at index i of a child list, or null past its end.
  ghost function At(s: seq<Chunk>, i: nat): Chunk? {
    if i < |s| then s[i] else null
  }

  ghost function HeaderOf(f: Forest, c: Chunk): Header
    requires WellFormed(f) && c in f
  {
    assert PlaceFits(f, c);
    var p, i := f[c].parent, f[c].pos;
    Header(At(f[c].kids, 0),
           if p == null then null else At(f[p].kids, i + 1),
           if p == null || i == 0 then p else f[p].kids[i - 1])
  }

  ghost function Words(f: Forest): Memory
    requires WellFormed(f)
  {
    map c | c in f :: HeaderOf(f, c)
  }

  ghost predicate Represents(f: Forest, h: Memory) {
    WellFormed(f) && h == Words(f)
  }

  // ---------------------------------------------------------------- reading the pointers

  /** The discipline in terms of the pointers alone: `next` and `prev` are inverse along
      siblings, a first child's `prev` is its parent, a root has neither. */
  lemma PointerDiscipline(f: Forest, h: Memory, c: Chunk)
    requires Represents(f, h) && c in h
    ensures h[c].prev == null <==> f[c].parent == null
    ensures h[c].prev == null ==> h[c].next == null
    ensures h[c].child != c && h[c].next != c && h[c].prev != c
    ensures h[c].next != null ==> h[c].next in h && h[h[c].next].prev == c && h[c].next != h[c].child
    ensures h[c].child != null ==> h[c].child in h && h[h[c].child].prev == c && f[h[c].child].parent == c
    ensures h[c].prev != null ==> h[c].prev in h
                                  && (h[h[c].prev].next == c <==> f[c].pos != 0)
                                  && (h[h[c].prev].child == c <==> f[c].pos == 0)
                                  && (h[h[c].prev].next != c ==> h[c].prev == f[c].parent)
  {
    assert PlaceFits(f, c) && KidFits(f, c, 0);
    if f[c].parent != null {
      var p, i := f[c].parent, f[c].pos;
      assert PlaceFits(f, p) && KidFits(f, p, i + 1);
      if i == 0 {
        assert f[p].parent != null ==> KidFits(f, f[p].parent, f[p].pos + 1);
      } else {
        assert KidFits(f, p, i - 1);
        assert KidFits(f, f[p].kids[i - 1], 0);
      }
    }
  }

  // The headers determine the forest: no two shapes share a memory.
  lemma {:induction false} SameKid(f: Forest, g: Forest, h: Memory, p: Chunk, i: nat)
    requires Represents(f, h) && Represents(g, h) && p in h && i < |f[p].kids|
    ensures i < |g[p].kids| && f[p].kids[i] == g[p].kids[i]
    decreases i
  {
    assert h[p].child == At(f[p].kids, 0) == At(g[p].kids, 0);
    if i > 0 {
      SameKid(f, g, h, p, i - 1);
      var l := f[p].kids[i - 1];
      assert KidFits(f, p, i - 1) && KidFits(g, p, i - 1);
      assert h[l].next == At(f[p].kids, i) == At(g[p].kids, i);
    }
  }

  lemma SameKids(f: Forest, g: Forest, h: Memory, p: Chunk)
    requires Represents(f, h) && Represents(g, h) && p in h
    ensures f[p].kids == g[p].kids
  {
    forall i: nat | i < |f[p].kids|
      ensures i < |g[p].kids| && f[p].kids[i] == g[p].kids[i]
    {
      SameKid(f, g, h, p, i);
    }
    if |f[p].kids| < |g[p].kids| {
      SameKid(g, f, h, p, |f[p].kids|);
    } else if |g[p].kids| < |f[p].kids| {
      SameKid(f, g, h, p, |g[p].kids|);
    }
  }

  lemma ShapeIsUnique(f: Forest, g: Forest, h: Memory)
    requires Represents(f, h) && Represents(g, h)
    ensures f.Keys == g.Keys
    ensures forall c :: c in h ==> f[c].kids == g[c].kids && f[c].parent == g[c].parent
    ensures forall c :: c in h && f[c].parent != null ==> f[c].pos == g[c].pos
  {
    assert f.Keys == h.Keys && g.Keys == h.Keys;
    forall c | c in f ensures f[c].kids == g[c].kids { SameKids(f, g, h, c); }
    forall c | c in f
      ensures f[c].parent == g[c].parent && (f[c].parent != null ==> f[c].pos == g[c].pos)
    {
      assert PlaceFits(f, c) && PlaceFits(g, c);
      assert f[c].parent != null ==> KidFits(g, f[c].parent, f[c].pos);
      assert g[c].parent != null ==> KidFits(f, g[c].parent, g[c].pos);
    }
  }

  // ---------------------------------------------------------------- descendants

  // x hangs strictly below a.
  ghost predicate Below(f: Forest, a: Chunk, x: Chunk)
    requires WellFormed(f) && x in f
    decreases f[x].rank
  {
    assert PlaceFits(f, x);
    f[x].parent != null && (f[x].parent == a || Below(f, a, f[x].parent))
  }

  ghost predicate Under(f: Forest, a: Chunk, x: Chunk)
    requires WellFormed(f) && x in f
  {
    x == a || Below(f, a, x)
  }

  // Which child of a the chunk x hangs under.
  ghost function Branch(f: Forest, a: Chunk, x: Chunk): (i: nat)
    requires WellFormed(f) && a in f && x in f && Below(f, a, x)
    ensures i < |f[a].kids|
    decreases f[x].rank
  {
    assert PlaceFits(f, x);
    if f[x].parent == a then f[x].pos else Branch(f, a, f[x].parent)
  }

  ghost function Subtree(f: Forest, a: Chunk): set<Chunk>
    requires WellFormed(f)
  {
    set x | x in f && Under(f, a, x)
  }

  // Everything under the children of a from index i on.
  ghost function Tail(f: Forest, a: Chunk, i: nat): set<Chunk>
    requires WellFormed(f) && a in f
  {
    set x | x in f && Below(f, a, x) && Branch(f, a, x) >= i
  }

  lemma {:induction false} BelowRank(f: Forest, a: Chunk, x: Chunk)
    requires WellFormed(f) && a in f && x in f && Below(f, a, x)
    ensures f[a].rank < f[x].rank
    decreases f[x].rank
  {
    assert PlaceFits(f, x);
    if f[x].parent != a {
      BelowRank(f, a, f[x].parent);
    }
  }

  lemma {:induction false} BranchUnder(f: Forest, a: Chunk, x: Chunk, i: nat)
    requires WellFormed(f) && a in f && x in f && i < |f[a].kids|
    ensures Under(f, f[a].kids[i], x) <==> Below(f, a, x) && Branch(f, a, x) == i
    decreases f[x].rank
  {
    var k := f[a].kids[i];
    assert PlaceFits(f, x) && KidFits(f, a, i) && PlaceFits(f, k);
    if x != k && f[x].parent != null {
      var y := f[x].parent;
      if y == a {
        NotBelowAbove(f, k, a);
      } else {
        BranchUnder(f, a, y, i);
      }
    }
  }

  lemma NotBelowAbove(f: Forest, k: Chunk, a: Chunk)
    requires WellFormed(f) && a in f && k in f && f[a].rank <= f[k].rank
    ensures !Below(f, k, a)
  {
    if Below(f, k, a) { BelowRank(f, k, a); }
  }

  /** A list of subtrees is its first chunk, what hangs below that, and the rest of the list:
      three disjoint parts. */
  lemma TailSplits(f: Forest, a: Chunk, i: nat)
    requires WellFormed(f) && a in f && i < |f[a].kids|
    ensures var m := f[a].kids[i];
      && m in f
      && Tail(f, a, i) == {m} + Tail(f, m, 0) + Tail(f, a, i + 1)
      && m !in Tail(f, m, 0) && m !in Tail(f, a, i + 1) && Tail(f, m, 0) !! Tail(f, a, i + 1)
  {
    var m := f[a].kids[i];
    assert KidFits(f, a, i);
    forall x | x in f
      ensures Under(f, m, x) <==> Below(f, a, x) && Branch(f, a, x) == i
      ensures Below(f, m, x) ==> x != m
    {
      BranchUnder(f, a, x, i);
      NotBelowAbove(f, m, m);
    }
  }

  lemma TailEnds(f: Forest, a: Chunk)
    requires WellFormed(f) && a in f
    ensures Tail(f, a, |f[a].kids|) == {}
    ensures Subtree(f, a) == {a} + Tail(f, a, 0) && a !in Tail(f, a, 0)
  {
    NotBelowAbove(f, a, a);
  }
}
