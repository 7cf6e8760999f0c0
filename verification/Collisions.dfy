/** Runs of the hash table as written that go wrong: three keys that meet in one bucket of the table
    that carp_ht_init makes for labels, and one key that is set twice.
  */
module Collisions {
  import opened Bytecode
  import opened Chains
  import opened Tables
  import opened Assembler
  import opened Names

  lemma Collide()
    ensures Hash("a", 10) == 0 && Hash("k", 10) == 0 && Hash("u", 10) == 0
  {
    assert "a"[..0] == "" && "k"[..0] == "" && "u"[..0] == "";
    assert RawHash("") == 5381;
  }

  // A table of ten buckets with all its entries in the first one.
  function First(s: Chain): Table {
    Empty(10)[0 := s]
  }

  lemma FirstSet(s: Chain, key: string, v: int)
    requires Hash(key, 10) == 0 && |s| <= 6
    ensures Set(First(s), key, v) == First(SetChain(s, key, v))
  {
    EmptyCounts(Empty(10));
    EntriesUpdate(Empty(10), 0, s);
    HotIff(First(s));
  }

  lemma FirstDel(s: Chain, key: string)
    requires Hash(key, 10) == 0
    ensures Del(First(s), key) == First(DelChain(s, key))
  {
  }

  lemma TwoSets(k1: string, v1: int, k2: string, v2: int)
    requires Hash(k1, 10) == 0 && Hash(k2, 10) == 0
    ensures Set(Set(Empty(10), k1, v1), k2, v2) == First([Pair(k1, v1), Pair(k2, v2)])
  {
    hide Set, Hash;
    assert Empty(10) == First([]);
    FirstSet([], k1, v1);
    FirstSet([Pair(k1, v1)], k2, v2);
    assert SetChain([], k1, v1) == [Pair(k1, v1)];
    assert SetChain([Pair(k1, v1)], k2, v2) == [Pair(k1, v1), Pair(k2, v2)];
  }

  /** The third key is not stored, and the second one answers with its value. */
  lemma ThirdKeyIsLost(x: int, y: int, z: int)
    ensures var t := Set(Set(Set(Empty(10), "a", x), "k", y), "u", z);
      Get(t, "a") == Some(x) && Get(t, "k") == Some(z) && Get(t, "u") == None
  {
    hide Set, Hash;
    Collide();
    TwoSets("a", x, "k", y);
    var s := [Pair("a", x), Pair("k", y)];
    FirstSet(s, "u", z);
    assert "k" != "u" && "a" != "k" && "a" != "u";
    VictimIs(s, 0, "u");
    assert SetChain(s, "u", z) == [Pair("a", x), Pair("k", z)];
    LookupAt([Pair("a", x), Pair("k", z)], 1, "k");
    LookupAbsent([Pair("a", x), Pair("k", z)], "u");
  }

  /** Deleting the second key loses the first one too. */
  lemma DeletionTakesTheFirst(x: int, y: int)
    ensures var t := Set(Set(Empty(10), "a", x), "k", y);
      Get(t, "a") == Some(x) && Get(Del(t, "k"), "a") == None
  {
    hide Set, Del, Hash;
    Collide();
    TwoSets("a", x, "k", y);
    var s := [Pair("a", x), Pair("k", y)];
    FirstDel(s, "k");
    assert "a" != "k";
    LookupAt(s, 1, "k");
    assert DelChain(s, "k") == DelChain(s[1..], "k") == [];
  }

  /** A new value is appended and never found. */
  lemma UpdateIsNotSeen(x: int, y: int)
    ensures Get(Set(Set(Empty(10), "k", x), "k", y), "k") == Some(x)
  {
    hide Set, Hash;
    Collide();
    TwoSets("k", x, "k", y);
  }

  /** So a key that is set twice, be it to the same value, survives its deletion. */
  lemma SecondSetSurvives(x: int)
    ensures var t := Set(Set(Empty(10), "k", x), "k", x);
      Agrees(t, map["k" := x]) && Get(Del(t, "k"), "k") == Some(x)
  {
    hide Set, Del, Hash;
    Collide();
    TwoSets("k", x, "k", x);
    FirstDel([Pair("k", x), Pair("k", x)], "k");
    forall k ensures Get(First([Pair("k", x), Pair("k", x)]), k) == if k == "k" then Some(x) else None {
      if k != "k" { LookupAbsent([Pair("k", x), Pair("k", x)], k); }
    }
  }

  // ---------------------------------------------------------------- texts

  // Three labels and a call.
  function Text(called: string): seq<Lexeme> {
    [Lexeme("a", Lbl), Lexeme("k", Lbl), Lexeme("u", Lbl), I("call"), Lexeme(called, Func)]
  }

  lemma TextIsMeant(called: string)
    requires called == "k" || called == "u"
    ensures var xs := Text(called);
      && LabelsDistinct(xs) && Plain(xs) && CallsResolve(xs)
      && Definition(xs[..4], called) == Some(if called == "k" then 1 else 2)
  {
    var xs := Text(called);
    assert "a" != "k" && "a" != "u" && "k" != "u";
    DefinitionIs(xs[..4], called);
    assert xs[..4][1] == xs[1] && xs[..4][2] == xs[2];
  }

  // The table before the call.
  lemma TextTable(called: string)
    ensures Labels(Text(called)[..4], false) == Set(Set(Set(Empty(10), "a", 0), "k", 1), "u", 2)
  {
    hide Set, Labels;
    var xs := Text(called);
    NoLabels();
    assert xs[..0] == [];
    LabelsStep(xs, false, 0);
    LabelsStep(xs, false, 1);
    LabelsStep(xs, false, 2);
    LabelsStep(xs, false, 3);
  }

  /** `a: k: u: call u`, with distinct labels that stand before the call, does not assemble. */
  lemma CallIsNotFound(junk: nat -> int)
    ensures var xs := Text("u");
      && LabelsDistinct(xs) && Plain(xs) && CallsResolve(xs) && !LabelsFit(xs)
      && Values(xs, junk, false) == None && Values(xs, junk, true).Some?
  {
    hide Set, Labels, LabelsFit, Values;
    var xs := Text("u");
    TextIsMeant("u");
    TextTable("u");
    ThirdKeyIsLost(0, 1, 2);
    ValuesMean(xs, junk, true);
    assert xs[..4] + [xs[4]] == xs;
    ValuesStep(xs, junk, false, 4);
    assert xs[..5] == xs;
    if LabelsFit(xs) { ValuesMean(xs, junk, false); }
  }

  /** `a: k: u: call k` assembles as a call of u. */
  lemma CallGoesElsewhere(junk: nat -> int)
    ensures var xs := Text("k");
      && LabelsDistinct(xs) && Plain(xs) && CallsResolve(xs)
      && Values(xs, junk, true).Some? && Values(xs, junk, true).value[4] == 1
      && Values(xs, junk, false).Some? && Values(xs, junk, false).value[4] == 2 && xs[2] == Lexeme("u", Lbl)
  {
    hide Set, Labels, LabelsFit, Values;
    var xs := Text("k");
    TextIsMeant("k");
    TextTable("k");
    ThirdKeyIsLost(0, 1, 2);
    ValuesMean(xs, junk, true);
    forall i: nat | i < 4 ensures Values(xs[..i + 1], junk, false).Some? <== Values(xs[..i], junk, false).Some? {
      ValuesStep(xs, junk, false, i);
    }
    assert xs[..0] == [] && Values([], junk, false) == Some([]) by { NoWords(junk); }
    assert Values(xs[..0 + 1], junk, false).Some?;
    assert Values(xs[..1 + 1], junk, false).Some?;
    assert Values(xs[..2 + 1], junk, false).Some?;
    assert Values(xs[..3 + 1], junk, false).Some?;
    ValuesStep(xs, junk, false, 4);
    assert xs[..5] == xs;
  }

  lemma NoLabels()
    ensures Labels([], false) == Empty(10)
  {
  }

  lemma NoWords(junk: nat -> int)
    ensures Values([], junk, false) == Some([])
  {
  }
}
