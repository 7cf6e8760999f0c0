/** Whole sessions with the allocator: any number of calls, one after the other, starting from any
    forest.  `exclusive` chooses between deps/talloc/talloc.c as it is and the same code with line 218
    read as the `else` of line 215.
  */
module Sessions {
  import opened Forests
  import opened ForestMoves
  import opened NoForest
  import opened Tallocs

  // A `Move` is a trealloc whose block moved; one that failed or stayed changes no header.
  datatype Call =
    | Alloc(m: Chunk, p: Chunk?)
    | SetParent(m: Chunk, p: Chunk?)
    | Steal(m: Chunk, p: Chunk?)
    | Free(m: Chunk)
    | Move(m: Chunk, to: Chunk)

  // The arguments are live, and new blocks are new.
  predicate Legal(f: Forest, call: Call) {
    match call
    case Alloc(m, p) => m !in f && (p == null || p in f)
    case SetParent(m, p) => m in f && (p == null || p in f)
    case Steal(m, p) => m in f && (p == null || p in f)
    case Free(m) => m in f
    case Move(m, to) => m in f && to !in f
  }

  // The calls that keep a forest: `CanMove` and its like, without their first half if exclusive.
  ghost predicate Can(f: Forest, call: Call, exclusive: bool)
    requires WellFormed(f) && Legal(f, call)
  {
    match call
    case Alloc(_, _) => true
    case SetParent(m, p) => (exclusive || DetachesCleanly(Words(f), m)) && (p in f ==> !Under(f, m, p))
    case Steal(m, p) =>
      && (exclusive || DetachesCleanly(Words(f), m))
      && (f[m].kids == [] || (p == null && |f[m].kids| == 1) || (p in f && !Under(f, m, p)))
    case Free(m) => exclusive || DetachesCleanly(Words(f), m)
    case Move(_, _) => true
  }

  // ---------------------------------------------------------------- the words after a call

  ghost function Loose(f: Forest, m: Chunk, exclusive: bool): Memory
    requires WellFormed(f) && m in f
  {
    PointerDiscipline(f, Words(f), m);
    if exclusive then UnlinkedOnce(Words(f), m) else Unlinked(Words(f), m)
  }

  ghost function MoveWords(f: Forest, m: Chunk, p: Chunk?, exclusive: bool): Memory
    requires WellFormed(f) && m in f && (p == null || p in f)
  {
    var h := Loose(f, m, exclusive);
    if p != null then Linked(h, m, p) else h
  }

  ghost function StealWords(f: Forest, m: Chunk, p: Chunk?, exclusive: bool): Memory
    requires WellFormed(f) && m in f && (p == null || p in f)
  {
    var h, s := Loose(f, m, exclusive), f[m].kids;
    if s == [] then h else if p == null then Loosened(h, m) else Spliced(h, m, p, s[|s| - 1])
  }

  ghost function WordsAfter(f: Forest, call: Call, exclusive: bool): Memory
    requires WellFormed(f) && Legal(f, call)
  {
    match call
    case Alloc(m, p) => PlantedForest(f, m); MoveWords(Planted(f, m), m, p, exclusive)
    case SetParent(m, p) => MoveWords(f, m, p, exclusive)
    case Steal(m, p) => StealWords(f, m, p, exclusive)
    case Free(m) => map c | c in f && !Under(f, m, c) :: Loose(f, m, exclusive)[c]
    case Move(m, to) => Patched(Copied(Words(f), m, to), m, to)
  }

  ghost function ForestAfter(f: Forest, call: Call): Forest
    requires WellFormed(f) && Legal(f, call)
  {
    match call
    case Alloc(m, p) => PlantedForest(f, m); MovedForest(Planted(f, m), m, p)
    case SetParent(m, p) => MovedForest(f, m, p)
    case Steal(m, p) => StolenForest(f, m, p)
    case Free(m) => FelledForest(f, m)
    case Move(m, to) => Renamed(f, m, to)
  }

  // What the calls mean, as a statement about child lists and parents.
  lemma CallMeans(f: Forest, call: Call)
    requires WellFormed(f) && Legal(f, call) && Can(f, call, true)
    ensures var g := ForestAfter(f, call);
      match call
      case Alloc(m, p) => IsAdded(f, g, m, p)
      case SetParent(m, p) => IsMoved(f, g, m, p)
      case Steal(m, p) => IsStolen(f, g, m, p)
      case Free(m) =>
        && g.Keys == f.Keys - Subtree(f, m)
        && forall q :: q in g ==> g[q].kids == Without(f[q].kids, m) && g[q].parent == f[q].parent
      case Move(m, to) => IsRenamed(f, g, m, to)
  {
    hide WellFormed, MovedForest, StolenForest, FelledForest, Renamed, Subtree, Without, Words;
    hide IsMoved, IsAdded, IsStolen, IsRenamed;
    match call {
      case Alloc(m, p) =>
        PlantedForest(f, m);
        MoveShape(Planted(f, m), m, p);
        AddedShape(f, MovedForest(Planted(f, m), m, p), m, p);
      case SetParent(m, p) => MoveShape(f, m, p);
      case Steal(m, p) => UnderItself(f, m); StealShape(f, m, p);
      case Free(m) => FellShape(f, m);
      case Move(m, to) => RenamedShape(f, m, to);
    }
  }

  lemma UnderItself(f: Forest, m: Chunk)
    requires WellFormed(f) && m in f
    ensures Under(f, m, m)
  {
  }

  // ---------------------------------------------------------------- one call

  lemma LooseIs(f: Forest, m: Chunk, exclusive: bool)
    requires WellFormed(f) && m in f
    ensures !exclusive ==> Loose(f, m, exclusive) == Clobbered(f, m)
    ensures exclusive || DetachesCleanly(Words(f), m) ==> Loose(f, m, exclusive) == Words(Detached(f, m))
  {
    hide WellFormed, Unlinked, UnlinkedOnce, Clobbered, Detached, DetachesCleanly;
    PointerDiscipline(f, Words(f), m);
    if exclusive {
      ExclusiveUnlinkDetaches(f, m);
    } else {
      UnlinkedIsClobbered(f, m);
      if DetachesCleanly(Words(f), m) { CleanDetach(f, m); }
    }
  }

  lemma MoveKeeps(f: Forest, m: Chunk, p: Chunk?)
    requires WellFormed(f) && m in f && (p == null || p in f) && (p in f ==> !Under(f, m, p))
    ensures Represents(MovedForest(f, m, p), MoveWords(f, m, p, true))
  {
    hide WellFormed, Words, Loose, Below, Detached, Linked, Pushed;
    LooseIs(f, m, true);
    if p != null {
      DetachedBelow(f, m, p);
      PushedForest(Detached(f, m), m, p);
      LinkedIsPushed(Detached(f, m), m, p);
    }
  }

  lemma StealKeeps(f: Forest, m: Chunk, p: Chunk?)
    requires WellFormed(f) && m in f && (p == null || p in f)
    requires f[m].kids == [] || (p == null && |f[m].kids| == 1) || (p in f && !Under(f, m, p))
    ensures Represents(StolenForest(f, m, p), StealWords(f, m, p, true))
  {
    hide WellFormed, Words, Loose, Below, Detached, Spliced, Loosened, Released, Adopted;
    LooseIs(f, m, true);
    if f[m].kids != [] {
      if p == null {
        ReleasedForest(Detached(f, m), m);
        LoosenedIsReleased(Detached(f, m), m);
      } else {
        DetachedBelow(f, m, p);
        AdoptDetached(Detached(f, m), m, p);
      }
    }
  }

  lemma FreeKeeps(f: Forest, m: Chunk)
    requires WellFormed(f) && m in f
    ensures Represents(FelledForest(f, m), WordsAfter(f, Free(m), true))
  {
    hide WellFormed, Loose, Detached, Under;
    LooseIs(f, m, true);
    FelledForestOf(Detached(f, m), m);
    SubtreeDetached(f, m);
    FellShape(f, m);
    assert FelledForest(f, m).Keys == WordsAfter(f, Free(m), true).Keys;
    assert Words(FelledForest(f, m)) == WordsAfter(f, Free(m), true);
  }

  // Putting a chunk below itself makes a cycle.
  lemma MoveBreaks(f: Forest, m: Chunk, p: Chunk, g: Forest)
    requires WellFormed(f) && m in f && p in f && Under(f, m, p)
    ensures !Represents(g, MoveWords(f, m, p, true))
  {
    hide WellFormed, Words, Loose, Below, Detached, Linked;
    LooseIs(f, m, true);
    DetachedBelow(f, m, p);
    LinkedCycle(Detached(f, m), m, p, g);
  }

  lemma StealBreaks(f: Forest, m: Chunk, p: Chunk?, g: Forest)
    requires WellFormed(f) && m in f && (p == null || p in f) && f[m].kids != []
    requires if p == null then |f[m].kids| > 1 else Under(f, m, p)
    ensures !Represents(g, StealWords(f, m, p, true))
  {
    hide WellFormed, Words, Loose, Below, Detached, Spliced, Loosened, Broken;
    var d, h := Detached(f, m), StealWords(f, m, p, true);
    LooseIs(f, m, true);
    if p == null {
      BrokenWhenLoosened(d, m);
      BrokenIsNoForest(h, f[m].kids[0], f[m].kids[1], g);
    } else if p == m {
      BrokenWhenSelf(d, m, f[m].kids[|f[m].kids| - 1]);
      BrokenIsNoForest(h, m, f[m].kids[0], g);
    } else {
      DetachedBelow(f, m, p);
      SplicedCycle(d, m, p, g);
    }
  }

  // As written, the words are those the lemmas about the single functions speak of.
  lemma LiteralWords(f: Forest, call: Call)
    requires WellFormed(f) && Legal(f, call)
    ensures match call
      case Alloc(m, p) => true
      case SetParent(m, p) => WordsAfter(f, call, false) == MovedMemory(f, m, p)
      case Steal(m, p) => WordsAfter(f, call, false) == StolenMemory(f, m, p)
      case Free(m) => WordsAfter(f, call, false) == FelledMemory(f, m)
      case Move(_, _) => true
  {
    hide WellFormed, Loose, Linked, Spliced, Loosened, ClobberedHeader, Under;
    match call {
      case Alloc(_, _) =>
      case SetParent(m, _) => LooseIs(f, m, false);
      case Steal(m, _) => LooseIs(f, m, false);
      case Free(m) =>
        LooseIs(f, m, false);
        assert WordsAfter(f, call, false) == FelledMemory(f, m);
      case Move(_, _) =>
    }
  }

  lemma CallKeepsForest(f: Forest, call: Call, exclusive: bool)
    requires WellFormed(f) && Legal(f, call) && Can(f, call, exclusive)
    ensures Represents(ForestAfter(f, call), WordsAfter(f, call, exclusive))
  {
    hide WellFormed, MovedForest, StolenForest, FelledForest, Renamed, MoveWords, StealWords, Words, Under;
    hide DetachesCleanly, MovedMemory, StolenMemory, FelledMemory, Patched, Copied, Planted;
    LiteralWords(f, call);
    match call {
      case Alloc(m, p) => AllocKeeps(f, m, p, exclusive);
      case SetParent(m, p) => if exclusive { MoveKeeps(f, m, p); } else { MoveMakesForest(f, m, p); }
      case Steal(m, p) => if exclusive { StealKeeps(f, m, p); } else { StealMakesForest(f, m, p); }
      case Free(m) => if exclusive { FreeKeeps(f, m); } else { FellMakesForest(f, m); }
      case Move(m, to) =>
        RenamedForest(f, m, to);
        PatchedIsRenamed(f, m, to);
    }
  }

  lemma AllocKeeps(f: Forest, m: Chunk, p: Chunk?, exclusive: bool)
    requires WellFormed(f) && Legal(f, Alloc(m, p))
    ensures Represents(ForestAfter(f, Alloc(m, p)), WordsAfter(f, Alloc(m, p), exclusive))
  {
    var g := Planted(f, m);
    assert m in g && (p == null || p in g);
    hide WellFormed, MovedForest, MoveWords, MovedMemory, Under, Planted;
    PlantedForest(f, m);
    NewCanMove(f, m, p);
    if exclusive {
      MoveKeeps(g, m, p);
    } else {
      LiteralWords(g, SetParent(m, p));
      MoveMakesForest(g, m, p);
    }
  }

  /** After any one call from a forest, in either reading: the words are those of some forest exactly
      when the call is one of those `Can` describes, and then the forest is the one meant. */
  lemma CallIsForestIff(f: Forest, call: Call, exclusive: bool)
    requires WellFormed(f) && Legal(f, call)
    ensures Can(f, call, exclusive) <==> exists g: Forest :: Represents(g, WordsAfter(f, call, exclusive))
    ensures Can(f, call, exclusive) <==> Represents(ForestAfter(f, call), WordsAfter(f, call, exclusive))
  {
    hide WellFormed, Represents, WordsAfter;
    if Can(f, call, exclusive) {
      CallKeepsForest(f, call, exclusive);
    } else {
      forall g: Forest ensures !Represents(g, WordsAfter(f, call, exclusive)) {
        CallBreaks(f, call, exclusive, g);
      }
    }
  }

  lemma CallBreaks(f: Forest, call: Call, exclusive: bool, g: Forest)
    requires WellFormed(f) && Legal(f, call) && !Can(f, call, exclusive)
    ensures !Represents(g, WordsAfter(f, call, exclusive))
  {
    hide WellFormed, Words, Under, DetachesCleanly, MoveWords, StealWords, Represents;
    hide MovedMemory, StolenMemory, FelledMemory;
    LiteralWords(f, call);
    match call {
      case SetParent(m, p) => if exclusive { MoveBreaks(f, m, p, g); } else { MoveMakesNoForest(f, m, p, g); }
      case Steal(m, p) => if exclusive { StealBreaks(f, m, p, g); } else { StealMakesNoForest(f, m, p, g); }
      case Free(m) => FellMakesNoForest(f, m, g);
      case Alloc(_, _) =>
      case Move(_, _) =>
    }
  }

  // ---------------------------------------------------------------- whole sessions

  // Every call is legal, as long as those before it kept a forest.
  ghost predicate Session(f: Forest, calls: seq<Call>, exclusive: bool)
    decreases |calls|
  {
    WellFormed(f)
    && (calls == []
        || (Legal(f, calls[0])
            && (Can(f, calls[0], exclusive) ==> Session(ForestAfter(f, calls[0]), calls[1..], exclusive))))
  }

  ghost predicate AllCan(f: Forest, calls: seq<Call>, exclusive: bool)
    requires Session(f, calls, exclusive)
    decreases |calls|
  {
    calls == []
    || (Can(f, calls[0], exclusive) && AllCan(ForestAfter(f, calls[0]), calls[1..], exclusive))
  }

  // After every call the words are those of the forest meant, and the next call starts from it.
  ghost predicate StaysForest(f: Forest, calls: seq<Call>, exclusive: bool)
    decreases |calls|
  {
    WellFormed(f)
    && (calls == []
        || (&& Legal(f, calls[0])
            && Represents(ForestAfter(f, calls[0]), WordsAfter(f, calls[0], exclusive))
            && StaysForest(ForestAfter(f, calls[0]), calls[1..], exclusive)))
  }

  /** A session stays with forests exactly when every call is one that `Can` describes.  In the
      exclusive reading that says: as long as no chunk is put below itself and none with several
      children has them all made roots. */
  lemma {:induction false} SessionIsForestIff(f: Forest, calls: seq<Call>, exclusive: bool)
    requires Session(f, calls, exclusive)
    ensures AllCan(f, calls, exclusive) <==> StaysForest(f, calls, exclusive)
    decreases |calls|
  {
    hide WellFormed, Can, ForestAfter, WordsAfter, Represents;
    if calls != [] {
      CallIsForestIff(f, calls[0], exclusive);
      if Can(f, calls[0], exclusive) {
        SessionIsForestIff(ForestAfter(f, calls[0]), calls[1..], exclusive);
      }
    }
  }

  // ---------------------------------------------------------------- sessions that go wrong

  ghost function ForestAfterAll(f: Forest, calls: seq<Call>, exclusive: bool): Forest
    requires Session(f, calls, exclusive) && AllCan(f, calls, exclusive)
    decreases |calls|
  {
    if calls == [] then f else ForestAfterAll(ForestAfter(f, calls[0]), calls[1..], exclusive)
  }

  // A root, its two children m and a, and c under a.
  function Building(root: Chunk, a: Chunk, m: Chunk, c: Chunk): seq<Call> {
    [Alloc(root, null), Alloc(m, root), Alloc(a, root), Alloc(c, a)]
  }

  lemma Allocates(f: Forest, m: Chunk, p: Chunk?)
    requires WellFormed(f) && Legal(f, Alloc(m, p))
    ensures WellFormed(ForestAfter(f, Alloc(m, p))) && IsAdded(f, ForestAfter(f, Alloc(m, p)), m, p)
  {
    hide WellFormed, IsAdded, Words, WordsAfter, ForestAfter;
    CallKeepsForest(f, Alloc(m, p), true);
    CallMeans(f, Alloc(m, p));
  }

  /** From nothing, four allocations build a family at which setting a parent (line 218) and handing
      over children (line 274) both leave no forest. */
  lemma FamilyFromNothing(root: Chunk, a: Chunk, m: Chunk, c: Chunk)
    requires root != a && root != m && root != c && a != m && a != c && m != c
    ensures var calls := Building(root, a, m, c);
      && Session(map[], calls, false) && AllCan(map[], calls, false)
      && var f := ForestAfterAll(map[], calls, false);
         && WellFormed(f) && f.Keys == {root, a, m, c}
         && f[root].kids == [a, m] && f[a].kids == [c] && f[m].kids == [] && f[c].kids == []
         && !Can(f, SetParent(m, null), false) && !Can(f, Steal(root, null), false)
  {
    hide ForestAfter, WellFormed, Can, IsAdded, Session, AllCan, ForestAfterAll;
    var f0: Forest := map[];
    assert WellFormed(f0) by { EmptyIsForest(); }
    Allocates(f0, root, null);
    var f1 := ForestAfter(f0, Alloc(root, null));
    Keys(f0, f1, root, null);
    Allocates(f1, m, root);
    var f2 := ForestAfter(f1, Alloc(m, root));
    Keys(f1, f2, m, root);
    Allocates(f2, a, root);
    var f3 := ForestAfter(f2, Alloc(a, root));
    Keys(f2, f3, a, root);
    Allocates(f3, c, a);
    var f4 := ForestAfter(f3, Alloc(c, a));
    Keys(f3, f4, c, a);
    FamilyGrows(f1, f2, f3, f4, root, a, m, c);
    GetsNone(f4);
    GetsMore(f3, Alloc(c, a), [], f4);
    assert [Alloc(c, a)] + [] == [Alloc(c, a)];
    GetsMore(f2, Alloc(a, root), [Alloc(c, a)], f4);
    assert [Alloc(a, root)] + [Alloc(c, a)] == [Alloc(a, root), Alloc(c, a)];
    GetsMore(f1, Alloc(m, root), [Alloc(a, root), Alloc(c, a)], f4);
    assert [Alloc(m, root)] + [Alloc(a, root), Alloc(c, a)] == [Alloc(m, root), Alloc(a, root), Alloc(c, a)];
    GetsMore(f0, Alloc(root, null), [Alloc(m, root), Alloc(a, root), Alloc(c, a)], f4);
    assert [Alloc(root, null)] + [Alloc(m, root), Alloc(a, root), Alloc(c, a)] == Building(root, a, m, c);
    FamilyCannot(f4, root, a, m, c);
  }

  lemma Keys(f: Forest, g: Forest, m: Chunk, p: Chunk?)
    requires IsAdded(f, g, m, p)
    ensures g.Keys == f.Keys + {m} && g[m].kids == []
  {
  }

  lemma FamilyGrows(f1: Forest, f2: Forest, f3: Forest, f4: Forest, root: Chunk, a: Chunk, m: Chunk, c: Chunk)
    requires root != a && root != m && root != c && a != m && a != c && m != c
    requires f1.Keys == {root} && f1[root].kids == []
    requires IsAdded(f1, f2, m, root) && IsAdded(f2, f3, a, root) && IsAdded(f3, f4, c, a)
    ensures f4.Keys == {root, a, m, c} && f4[root].kids == [a, m] && f4[a].kids == [c] && f4[m].kids == []
    ensures f4[c].kids == [] && f4[m].parent == root
  {
    assert root in f1 && root in f2 && m in f2 && root in f3 && m in f3 && a in f3;
  }

  lemma EmptyIsForest()
    ensures WellFormed(map[])
  {
  }

  // From f, the calls are a session of calls that all keep a forest, and lead to g.
  ghost predicate Gets(f: Forest, calls: seq<Call>, g: Forest) {
    Session(f, calls, false) && AllCan(f, calls, false) && ForestAfterAll(f, calls, false) == g
  }

  lemma GetsNone(f: Forest)
    requires WellFormed(f)
    ensures Gets(f, [], f)
  {
  }

  lemma GetsMore(f: Forest, call: Call, rest: seq<Call>, g: Forest)
    requires WellFormed(f) && Legal(f, call) && call.Alloc? && Gets(ForestAfter(f, call), rest, g)
    ensures Gets(f, [call] + rest, g)
  {
    hide WellFormed, Legal, ForestAfter;
    assert ([call] + rest)[1..] == rest;
    assert Can(f, call, false);
  }

  lemma FamilyCannot(f: Forest, root: Chunk, a: Chunk, m: Chunk, c: Chunk)
    requires WellFormed(f) && f.Keys == {root, a, m, c} && m in f && root in f && a in f
    requires root != a && root != m && root != c && a != m && a != c && m != c
    requires f[root].kids == [a, m] && f[a].kids == [c] && f[m].parent == root
    ensures !Can(f, SetParent(m, null), false) && !Can(f, Steal(root, null), false)
  {
    assert KidFits(f, root, 0) && KidFits(f, root, 1) && KidFits(f, a, 0);
    assert HeaderOf(f, m) == Header(if f[m].kids == [] then null else f[m].kids[0], null, a);
    assert HeaderOf(f, a) == Header(c, m, root);
  }
}
