/** The one-pass assembler of src/lexer.c: labels are entered in the hash table as they are met, and
    a called name is looked up in what has been entered so far.
  */
module Assembler {
  import opened Bytecode
  import opened Chains
  import opened Tables
  import Mended

  datatype Kind = Undef | Num | Reg | Lbl | Func | Var | Instr

  datatype Lexeme = Lexeme(text: string, kind: Kind)

  const REG_NAMES: seq<string> :=
    ["r0", "r1", "r2", "r3", "r4", "r5", "r6", "r7", "r8", "r9", "ax", "bx", "cx", "dx", "rx",
     "ip", "sp", "fp", "gbg", "run", "ext"]

  const INSTR_NAMES: seq<string> :=
    ["halt", "nop", "loadr", "load", "store", "mov", "add", "sub", "mul", "mod", "shr", "shl", "not",
     "xor", "or", "and", "incr", "decr", "inc", "dec", "pushr", "push", "pop", "cmp", "lt", "gt", "jz",
     "rjz", "jnz", "rjnz", "jmp", "rjmp", "call", "ret", "preg", "ptop"]

  // The first index at which the name stands, or -1.
  function IndexIn(names: seq<string>, s: string, i: nat): (r: int)
    requires i <= |names|
    ensures r == -1 || i <= r < |names|
    decreases |names| - i
  {
    if i == |names| then -1 else if names[i] == s then i else IndexIn(names, s, i + 1)
  }

  // The first one, and -1 only if there is none.
  lemma {:induction false} IndexIs(names: seq<string>, s: string, i: nat)
    requires i <= |names|
    ensures var r := IndexIn(names, s, i);
      if r == -1 then forall j :: i <= j < |names| ==> names[j] != s
      else names[r] == s && forall j :: i <= j < r ==> names[j] != s
    decreases |names| - i
  {
    if i < |names| && names[i] != s {
      IndexIs(names, s, i + 1);
    }
  }

  // atoi on a sign or digit followed by digits
  function Digits(s: string): int {
    if s == [] then 0 else 10 * Digits(s[..|s| - 1]) + (s[|s| - 1] as int - '0' as int)
  }

  function Atoi(s: string): int {
    if s == [] then 0
    else if s[0] == '-' then -Digits(s[1..])
    else if s[0] == '+' then Digits(s[1..])
    else Digits(s)
  }

  // ---------------------------------------------------------------- src/lexer.c, lines 38 to 83

  // The value of a token that was allocated holding `was`, given the labels so far; None when assembly
  // stops here.
  function ValueOf(x: Lexeme, was: int, labels: Table): Option<int> {
    match x.kind
    case Undef => None
    case Var => Some(was)
    case Num => Some(Atoi(x.text))
    case Reg => Some(IndexIn(REG_NAMES, x.text, 0))
    case Instr => Some(IndexIn(INSTR_NAMES, x.text, 0))
    case Lbl => Some(1)
    case Func => Get(labels, x.text)
  }

  function LabelsAfter(x: Lexeme, pos: int, labels: Table, mended: bool): Table {
    if x.kind != Lbl then labels
    else if mended then Mended.Do(labels, SetCall(x.text, pos))
    else Set(labels, x.text, pos)
  }

  // The labels entered by the tokens of xs, with the hash table as written or mended.
  function Labels(xs: seq<Lexeme>, mended: bool): Table {
    if xs == [] then Empty(10)
    else LabelsAfter(xs[|xs| - 1], |xs| - 1, Labels(xs[..|xs| - 1], mended), mended)
  }

  // The words of xs, one for every token; None when a token has no value.  `junk` is what the tokens
  // held when they were allocated.
  function Values(xs: seq<Lexeme>, junk: nat -> int, mended: bool): (r: Option<seq<int>>)
    ensures r.Some? ==> |r.value| == |xs|
  {
    if xs == [] then Some([])
    else
      var n := |xs| - 1;
      var words :- Values(xs[..n], junk, mended);
      var w :- ValueOf(xs[n], junk(n), Labels(xs[..n], mended));
      Some(words + [w])
  }

  // `length` starts at -1, so one word less is loaded than was assembled.
  function LoadedPart(words: seq<int>): seq<int> {
    if words == [] then [] else words[..|words| - 1]
  }

  // ---------------------------------------------------------------- what assembly means

  // Where the last label of that name stands.
  function Definition(xs: seq<Lexeme>, name: string): Option<int> {
    if xs == [] then None
    else if xs[|xs| - 1] == Lexeme(name, Lbl) then Some(|xs| - 1)
    else Definition(xs[..|xs| - 1], name)
  }

  lemma {:induction false} DefinitionIs(xs: seq<Lexeme>, name: string)
    ensures match Definition(xs, name)
            case Some(k) => 0 <= k < |xs| && xs[k] == Lexeme(name, Lbl)
            case None => forall k :: 0 <= k < |xs| ==> xs[k] != Lexeme(name, Lbl)
  {
    if xs != [] && xs[|xs| - 1] != Lexeme(name, Lbl) {
      DefinitionIs(xs[..|xs| - 1], name);
    }
  }

  // No word is unknown.
  predicate Plain(xs: seq<Lexeme>) {
    forall i :: 0 <= i < |xs| ==> xs[i].kind != Undef
  }

  // Every called name has a label before the call.
  predicate CallsResolve(xs: seq<Lexeme>) {
    forall i :: 0 <= i < |xs| && xs[i].kind == Func ==> Definition(xs[..i], xs[i].text).Some?
  }

  // What the word at position i stands for.
  function Meaning(xs: seq<Lexeme>, junk: nat -> int, i: nat): int
    requires i < |xs|
  {
    match xs[i].kind
    case Num => Atoi(xs[i].text)
    case Reg => IndexIn(REG_NAMES, xs[i].text, 0)
    case Instr => IndexIn(INSTR_NAMES, xs[i].text, 0)
    case Lbl => 1
    case Func => (match Definition(xs[..i], xs[i].text) case Some(k) => k case None => -1)
    case Var => junk(i)
    case Undef => -1
  }

  // ---------------------------------------------------------------- the label table

  // The table knows where every label stands.
  ghost predicate Knows(xs: seq<Lexeme>, mended: bool) {
    forall name :: Get(Labels(xs, mended), name) == Definition(xs, name)
  }

  // Every label is one that the table as written takes, in the order of the text.
  ghost predicate LabelsFit(xs: seq<Lexeme>) {
    xs == [] ||
    (var n := |xs| - 1;
     && LabelsFit(xs[..n])
     && (xs[n].kind == Lbl ==> Fits(Labels(xs[..n], false), SetCall(xs[n].text, n))))
  }

  lemma {:induction false} LabelsShaped(xs: seq<Lexeme>)
    ensures Shaped(Labels(xs, false))
  {
    hide Shaped, Set;
    if xs == [] {
      FreshTable(10);
    } else {
      var n := |xs| - 1;
      LabelsShaped(xs[..n]);
      StepKeepsShape(Labels(xs[..n], false), SetCall(xs[n].text, n));
    }
  }

  // One more token, as written.
  lemma OneMore(xs: seq<Lexeme>)
    requires xs != [] && Knows(xs[..|xs| - 1], false)
    ensures var n := |xs| - 1;
      Knows(xs, false) <==> (xs[n].kind == Lbl ==> Fits(Labels(xs[..n], false), SetCall(xs[n].text, n)))
  {
    hide Fits, Set, Get, Shaped;
    var n := |xs| - 1;
    var t := Labels(xs[..n], false);
    LabelsShaped(xs[..n]);
    if xs[n].kind == Lbl {
      SetIsRightIffFits(t, xs[n].text, n);
      assert xs[n] == Lexeme(xs[n].text, Lbl);
      assert Labels(xs, false) == Set(t, xs[n].text, n);
      forall name ensures Definition(xs, name) == if name == xs[n].text then Some(n) else Get(t, name) {}
    }
  }

  /** If the labels fit, the table as written knows them; mended, it always does. */
  lemma {:induction false} LabelsAnswer(xs: seq<Lexeme>, mended: bool)
    requires mended || LabelsFit(xs)
    ensures Knows(xs, mended)
    ensures mended ==> Mended.WellPlaced(Labels(xs, true))
  {
    hide Shaped, Mended.WellPlaced, Fits, Mended.Do;
    if xs == [] {
      FreshTable(10);
      Mended.FreshAnswers(10);
    } else {
      var n := |xs| - 1;
      LabelsAnswer(xs[..n], mended);
      if !mended {
        OneMore(xs);
      } else if xs[n].kind == Lbl {
        Mended.SetIsRight(Labels(xs[..n], true), xs[n].text, n);
        assert xs[n] == Lexeme(xs[n].text, Lbl);
      }
    }
  }

  /** The labels fit exactly when the table as written knows them after every token. */
  lemma {:induction false} LabelsFitIff(xs: seq<Lexeme>)
    ensures LabelsFit(xs) <==> forall k :: 0 <= k <= |xs| ==> Knows(xs[..k], false)
  {
    hide Knows, Fits, Labels;
    assert xs[..|xs|] == xs;
    if xs == [] {
      LabelsAnswer(xs, false);
    } else {
      var n := |xs| - 1;
      LabelsFitIff(xs[..n]);
      assert forall k :: 0 <= k <= n ==> xs[..n][..k] == xs[..k];
      if Knows(xs[..n], false) { OneMore(xs); }
    }
  }

  // As written, too, the table never answers for a name that is no label.
  lemma {:induction false} OnlyLabelsAnswer(xs: seq<Lexeme>, name: string)
    requires Definition(xs, name) == None
    ensures Get(Labels(xs, false), name) == None
  {
    hide Shaped, Set, Get;
    if xs == [] {
      FreshTable(10);
    } else {
      var n := |xs| - 1;
      OnlyLabelsAnswer(xs[..n], name);
      LabelsShaped(xs[..n]);
      if xs[n].kind == Lbl {
        assert xs[n] == Lexeme(xs[n].text, Lbl);
        NothingNewAppears(Labels(xs[..n], false), xs[n].text, n, name);
      }
    }
  }

  // ---------------------------------------------------------------- what is assembled

  lemma {:induction false} ValuesMean(xs: seq<Lexeme>, junk: nat -> int, mended: bool)
    requires Plain(xs) && (mended || LabelsFit(xs))
    ensures Values(xs, junk, mended).Some? <==> CallsResolve(xs)
    ensures Values(xs, junk, mended).Some? ==>
              forall i :: 0 <= i < |xs| ==> Values(xs, junk, mended).value[i] == Meaning(xs, junk, i)
  {
    hide Labels, Meaning, Get, Definition, ValueOf;
    if xs != [] {
      var n := |xs| - 1;
      var r := xs[..n];
      ValuesMean(r, junk, mended);
      LastMeans(xs, junk, mended);
      assert forall i :: 0 <= i < n ==> r[i] == xs[i] && r[..i] == xs[..i];
      forall i | 0 <= i < n ensures Meaning(r, junk, i) == Meaning(xs, junk, i) { SameMeaning(xs, junk, i); }
    }
  }

  lemma SameMeaning(xs: seq<Lexeme>, junk: nat -> int, i: nat)
    requires i < |xs| - 1
    ensures Meaning(xs[..|xs| - 1], junk, i) == Meaning(xs, junk, i)
  {
    assert xs[..|xs| - 1][..i] == xs[..i];
  }

  // The last token has a value exactly when its call, if it is one, resolves.
  lemma LastMeans(xs: seq<Lexeme>, junk: nat -> int, mended: bool)
    requires xs != [] && Plain(xs) && (mended || LabelsFit(xs[..|xs| - 1]))
    ensures var n := |xs| - 1;
      var v := ValueOf(xs[n], junk(n), Labels(xs[..n], mended));
      && (v.Some? <==> (xs[n].kind == Func ==> Definition(xs[..n], xs[n].text).Some?))
      && (v.Some? ==> v.value == Meaning(xs, junk, n))
  {
    hide Labels, IndexIn, Get, Atoi, Definition, LabelsFit;
    LabelsAnswer(xs[..|xs| - 1], mended);
  }

  /** Assembly of a text without unknown words.  With the table mended, or if the labels fit the table
      as written, it succeeds exactly when every called name has an earlier label, and then every
      loaded word is what its token means; the last word is not loaded. */
  lemma AssemblyMeans(xs: seq<Lexeme>, junk: nat -> int, mended: bool)
    requires Plain(xs) && (mended || LabelsFit(xs))
    ensures Values(xs, junk, mended).Some? <==> CallsResolve(xs)
    ensures Values(xs, junk, mended).Some? ==>
              var code := LoadedPart(Values(xs, junk, mended).value);
              && (xs != [] ==> |code| == |xs| - 1)
              && forall i :: 0 <= i < |code| ==> code[i] == Meaning(xs, junk, i)
  {
    ValuesMean(xs, junk, mended);
  }

  // At every call the table as written knows where the called label stands.
  predicate CallsKnown(xs: seq<Lexeme>) {
    forall i :: 0 <= i < |xs| && xs[i].kind == Func ==> CallKnown(xs, i)
  }

  predicate CallKnown(xs: seq<Lexeme>, i: nat)
    requires i < |xs|
  {
    Get(Labels(xs[..i], false), xs[i].text) == Definition(xs[..i], xs[i].text)
  }

  /** What any text without unknown words assembles to as written is what it assembles to with the
      table mended, or nothing in both cases, exactly when its calls, should they all resolve, are all
      known to the table. */
  lemma {:induction false} AsMeantIff(xs: seq<Lexeme>, junk: nat -> int)
    requires Plain(xs)
    ensures Values(xs, junk, false) == Values(xs, junk, true) <==> (CallsResolve(xs) ==> CallsKnown(xs))
    ensures Values(xs, junk, false).Some? ==> CallsResolve(xs)
  {
    hide Labels, Meaning, Get, Definition, ValueOf;
    ValuesMean(xs, junk, true);
    if xs != [] {
      var n := |xs| - 1;
      var r := xs[..n];
      AsMeantIff(r, junk);
      LastAsMeant(xs, junk);
      LastMeans(xs, junk, true);
      ValuesMean(r, junk, true);
      assert forall i :: 0 <= i < n ==> r[i] == xs[i] && r[..i] == xs[..i];
      assert forall i :: 0 <= i < n ==> CallKnown(r, i) == CallKnown(xs, i);
      assert CallsKnown(xs) <==> CallsKnown(r) && (xs[n].kind == Func ==> CallKnown(xs, n));
      assert CallsResolve(xs) <==> CallsResolve(r) && (xs[n].kind == Func ==> Definition(xs[..n], xs[n].text).Some?);
      var v, w := ValueOf(xs[n], junk(n), Labels(xs[..n], false)), ValueOf(xs[n], junk(n), Labels(xs[..n], true));
      if Values(xs, junk, false).Some? && Values(xs, junk, true).Some? {
        SameEnds(Values(r, junk, false).value, v.value, Values(r, junk, true).value, w.value);
      }
    }
  }

  lemma SameEnds(a: seq<int>, x: int, b: seq<int>, y: int)
    requires |a| == |b|
    ensures a + [x] == b + [y] <==> a == b && x == y
  {
    if a + [x] == b + [y] {
      assert (a + [x])[..|a|] == a && (b + [y])[..|b|] == b && (a + [x])[|a|] == x;
    }
  }

  lemma LastAsMeant(xs: seq<Lexeme>, junk: nat -> int)
    requires xs != [] && Plain(xs)
    ensures var n := |xs| - 1;
      var v, w := ValueOf(xs[n], junk(n), Labels(xs[..n], false)), ValueOf(xs[n], junk(n), Labels(xs[..n], true));
      && (v.Some? ==> w.Some?)
      && (v == w <==> (xs[n].kind == Func ==> CallKnown(xs, n)))
  {
    hide Labels, IndexIn, Get, Atoi, Definition;
    var n := |xs| - 1;
    LabelsAnswer(xs[..n], true);
    if xs[n].kind == Func && Definition(xs[..n], xs[n].text) == None {
      OnlyLabelsAnswer(xs[..n], xs[n].text);
    }
  }

  // A loaded call leads to a loaded label of that name, whose word is the opcode of NOP.
  lemma CallTarget(xs: seq<Lexeme>, junk: nat -> int, mended: bool, i: nat)
    requires Plain(xs) && (mended || LabelsFit(xs))
    requires Values(xs, junk, mended).Some? && i < |xs| && xs[i].kind == Func
    ensures var w := Values(xs, junk, mended).value;
      0 <= w[i] < i && xs[w[i]] == Lexeme(xs[i].text, Lbl) && w[w[i]] == 1
      && w[i] < |LoadedPart(w)| && LoadedPart(w)[w[i]] == 1
  {
    hide Labels, LabelsFit, Values;
    ValuesMean(xs, junk, mended);
    DefinitionIs(xs[..i], xs[i].text);
  }

  // A label is found by its name, and is loaded unless it is the last word of the text.
  lemma LabelFound(xs: seq<Lexeme>, junk: nat -> int, mended: bool, name: string)
    requires Plain(xs) && (mended || LabelsFit(xs))
    requires Values(xs, junk, mended).Some? && Get(Labels(xs, mended), name).Some?
    ensures var w, k := Values(xs, junk, mended).value, Get(Labels(xs, mended), name).value;
      0 <= k < |xs| && xs[k] == Lexeme(name, Lbl) && w[k] == 1
      && (k < |LoadedPart(w)| <==> k + 1 < |xs|) && (k + 1 < |xs| ==> LoadedPart(w)[k] == 1)
  {
    hide Labels, Values, LabelsFit, Hash, Get;
    ValuesMean(xs, junk, mended);
    LabelsAnswer(xs, mended);
    DefinitionIs(xs, name);
  }

  // ---------------------------------------------------------------- few labels always fit

  function LabelCount(xs: seq<Lexeme>): nat {
    if xs == [] then 0 else LabelCount(xs[..|xs| - 1]) + if xs[|xs| - 1].kind == Lbl then 1 else 0
  }

  predicate LabelsDistinct(xs: seq<Lexeme>) {
    forall i, j :: 0 <= i < j < |xs| && xs[i].kind == Lbl && xs[j].kind == Lbl ==> xs[i].text != xs[j].text
  }

  lemma {:induction false} BucketInEntries(t: seq<Chain>, b: nat)
    requires b < |t|
    ensures |t[b]| <= Entries(t)
    decreases |t|
  {
    if b < |t| - 1 {
      BucketInEntries(t[..|t| - 1], b);
    }
  }

  /** Whatever they hash to, two distinct labels never get into each other's way. */
  lemma {:induction false} TwoLabelsFit(xs: seq<Lexeme>)
    requires LabelsDistinct(xs) && LabelCount(xs) <= 2
    ensures LabelsFit(xs) && |Labels(xs, false)| == 10 && Entries(Labels(xs, false)) <= LabelCount(xs)
  {
    if xs == [] {
      EmptyCounts(Empty(10));
    } else {
      var n := |xs| - 1;
      var r := xs[..n];
      TwoLabelsFit(r);
      if xs[n].kind == Lbl {
        var t := Labels(r, false);
        HotIff(t);
        BucketInEntries(t, Hash(xs[n].text, |t|));
        LabelsAnswer(r, false);
        DefinitionIs(r, xs[n].text);
        NewKeyFits(t[Hash(xs[n].text, |t|)], xs[n].text, n);
        PutCounts(t, xs[n].text, n);
      }
    }
  }

  // ---------------------------------------------------------------- the loop's view

  // A token without a value spoils the whole text.
  lemma {:induction false} ValuesPrefix(xs: seq<Lexeme>, junk: nat -> int, mended: bool, k: nat)
    requires k <= |xs| && Values(xs, junk, mended).Some?
    ensures Values(xs[..k], junk, mended).Some?
  {
    if k < |xs| {
      ValuesPrefix(xs[..|xs| - 1], junk, mended, k);
      assert xs[..|xs| - 1][..k] == xs[..k];
    } else {
      assert xs[..k] == xs;
    }
  }

  lemma LabelsStep(xs: seq<Lexeme>, mended: bool, k: nat)
    requires k < |xs|
    ensures Labels(xs[..k + 1], mended) == LabelsAfter(xs[k], k, Labels(xs[..k], mended), mended)
  {
    assert xs[..k + 1][..k] == xs[..k];
  }

  lemma ValuesStep(xs: seq<Lexeme>, junk: nat -> int, mended: bool, k: nat)
    requires k < |xs|
    ensures Labels(xs[..k + 1], mended) == LabelsAfter(xs[k], k, Labels(xs[..k], mended), mended)
    ensures var v := ValueOf(xs[k], junk(k), Labels(xs[..k], mended));
      Values(xs[..k + 1], junk, mended) ==
        if Values(xs[..k], junk, mended).None? || v.None? then None
        else Some(Values(xs[..k], junk, mended).value + [v.value])
  {
    assert xs[..k + 1][..k] == xs[..k];
  }
}
