/** `carp_lex_tokenize` of src/tokenizer.c from the sequence of words on: every word is classified
    with one word of lookbehind and becomes the next token of a linked list.
  */
module Tokenizer {
  import opened Bytecode
  import opened Assembler
  import opened Lexer

  predicate IsDigit(c: char) {
    '0' <= c <= '9'
  }

  predicate IsSign(c: char) {
    c == '+' || c == '-'
  }

  predicate IsNum(s: string) {
    s != [] && (IsSign(s[0]) || IsDigit(s[0])) && forall i :: 1 <= i < |s| ==> IsDigit(s[i])
  }

  predicate IsReg(s: string) {
    IndexIn(REG_NAMES, s, 0) != -1
  }

  predicate IsInstr(s: string) {
    IndexIn(INSTR_NAMES, s, 0) != -1
  }

  // The tests in the order of lines 84 to 98; `called` says that the last lexeme was "call".
  function Classify(w: string, called: bool): Kind {
    if IsNum(w) then Num
    else if IsReg(w) then Reg
    else if ':' in w then Lbl
    else if called then Func
    else if '$' in w then Var
    else if IsInstr(w) then Instr
    else Undef
  }

  // The last character of a label and the first one of a variable are not copied, whatever they are.
  function Stored(w: string, kind: Kind): string {
    if w == [] then w else if kind == Lbl then w[..|w| - 1] else if kind == Var then w[1..] else w
  }

  function LexemeOf(w: string, called: bool): Lexeme {
    Lexeme(Stored(w, Classify(w, called)), Classify(w, called))
  }

  // The lookbehind compares what was stored, so a label `call:` counts as well.
  predicate AfterCall(xs: seq<Lexeme>) {
    xs != [] && xs[|xs| - 1].text == "call"
  }

  function Scan(words: seq<string>): (xs: seq<Lexeme>)
    ensures |xs| == |words|
  {
    if words == [] then []
    else
      var xs := Scan(words[..|words| - 1]);
      xs + [LexemeOf(words[|words| - 1], AfterCall(xs))]
  }

  // ---------------------------------------------------------------- spelling out and scanning

  function Spell(x: Lexeme): string {
    if x.kind == Lbl then x.text + ":" else if x.kind == Var then "$" + x.text else x.text
  }

  function SpellAll(xs: seq<Lexeme>): seq<string> {
    seq(|xs|, i requires 0 <= i < |xs| => Spell(xs[i]))
  }

  // A lexeme that can stand where it stands: its spelling is taken for nothing else first.
  predicate Fitting(x: Lexeme, called: bool) {
    var w := Spell(x);
    match x.kind
    case Num => IsNum(w)
    case Reg => !IsNum(w) && IsReg(w)
    case Lbl => !IsReg(w)
    case Func => !IsNum(w) && !IsReg(w) && ':' !in w && called
    case Var => !IsReg(w) && ':' !in w && !called
    case Instr => !IsNum(w) && !IsReg(w) && ':' !in w && !called && '$' !in w && IsInstr(w)
    case Undef => !IsNum(w) && !IsReg(w) && ':' !in w && !called && '$' !in w && !IsInstr(w)
  }

  predicate AllFitting(xs: seq<Lexeme>) {
    forall i :: 0 <= i < |xs| ==> Fitting(xs[i], AfterCall(xs[..i]))
  }

  lemma ScanOne(x: Lexeme, called: bool)
    requires Fitting(x, called)
    ensures LexemeOf(Spell(x), called) == x
  {
    hide IsReg, IsInstr;
    var w := Spell(x);
    if x.kind == Lbl {
      assert w[|w| - 1] == ':';
      assert w[..|w| - 1] == x.text;
    } else if x.kind == Var {
      assert w[0] == '$' && w[1..] == x.text;
    }
  }

  /** Spelling out a text whose lexemes fit where they stand, and scanning it, gives the text back. */
  lemma {:induction false} ScanSpelled(xs: seq<Lexeme>)
    requires AllFitting(xs)
    ensures Scan(SpellAll(xs)) == xs
  {
    hide Fitting, Spell, LexemeOf;
    if xs != [] {
      var n := |xs| - 1;
      PrefixFits(xs);
      hide AllFitting;
      ScanSpelled(xs[..n]);
      assert SpellAll(xs)[..n] == SpellAll(xs[..n]) && SpellAll(xs)[n] == Spell(xs[n]);
      ScanOne(xs[n], AfterCall(xs[..n]));
    }
  }

  lemma PrefixFits(xs: seq<Lexeme>)
    requires xs != [] && AllFitting(xs)
    ensures AllFitting(xs[..|xs| - 1]) && Fitting(xs[|xs| - 1], AfterCall(xs[..|xs| - 1]))
  {
    hide Fitting;
    assert forall i :: 0 <= i < |xs| - 1 ==> xs[..|xs| - 1][i] == xs[i] && xs[..|xs| - 1][..i] == xs[..i];
  }

  // The other way round: only misplaced colons and dollars are lost.
  lemma {:induction false} SpellScanned(words: seq<string>)
    ensures SpellAll(Scan(words)) == words <==>
            forall i :: 0 <= i < |words| ==>
              (Scan(words)[i].kind == Lbl ==> words[i] != [] && words[i][|words[i]| - 1] == ':')
              && (Scan(words)[i].kind == Var ==> words[i] != [] && words[i][0] == '$')
  {
    forall i | 0 <= i < |words|
      ensures var k := Scan(words)[i].kind;
        Spell(Scan(words)[i]) == words[i] <==>
          (k == Lbl ==> words[i] != [] && words[i][|words[i]| - 1] == ':')
          && (k == Var ==> words[i] != [] && words[i][0] == '$')
    {
      ScanAt(words, i);
      SpellOne(words[i], AfterCall(Scan(words[..i])));
    }
    if SpellAll(Scan(words)) == words {
      forall i | 0 <= i < |words| ensures Spell(Scan(words)[i]) == words[i] {
        assert SpellAll(Scan(words))[i] == words[i];
      }
    }
  }

  lemma {:induction false} ScanAt(words: seq<string>, i: nat)
    requires i < |words|
    ensures Scan(words)[i] == LexemeOf(words[i], AfterCall(Scan(words[..i])))
    decreases |words|
  {
    var n := |words| - 1;
    if i < n {
      ScanAt(words[..n], i);
      assert words[..n][..i] == words[..i];
    }
  }

  lemma SpellOne(w: string, called: bool)
    ensures var x := LexemeOf(w, called);
      Spell(x) == w <==>
        (x.kind == Lbl ==> w != [] && w[|w| - 1] == ':') && (x.kind == Var ==> w != [] && w[0] == '$')
  {
    hide IsReg, IsInstr, IsNum;
    var x := LexemeOf(w, called);
    if x.kind == Lbl {
      assert w == w[..|w| - 1] + [w[|w| - 1]];
      assert Spell(x)[|w| - 1] == ':';
    } else if x.kind == Var {
      assert w == [w[0]] + w[1..];
      assert Spell(x)[0] == '$';
    }
  }

  // ---------------------------------------------------------------- the loop

  // is_num, with its loop
  method NumTest(s: string) returns (r: bool)
    ensures r <==> IsNum(s)
  {
    if s == [] || !(IsSign(s[0]) || IsDigit(s[0])) {
      return false;
    }
    for i := 1 to |s|
      invariant forall j :: 1 <= j < i ==> IsDigit(s[j])
    {
      if !IsDigit(s[i]) {
        return false;
      }
    }
    return true;
  }

  lemma SingleToken(t: Token, x: Lexeme)
    requires t.lexeme == x && t.pos == 0 && t.next == null
    ensures TokenList(t, [t], [x])
  {
  }

  method Follow(last: Token, t: Token, ghost head: Token, ghost s: seq<Token>, ghost xs: seq<Lexeme>)
    requires TokenList(head, s, xs) && last == s[|s| - 1] && t !in s && t.pos == |s| && t.next == null
    modifies last`next
    ensures TokenList(head, s + [t], xs + [t.lexeme])
  {
    last.next := t;
  }

  lemma ScanStep(words: seq<string>, i: nat)
    requires i < |words|
    ensures Scan(words[..i + 1]) == Scan(words[..i]) + [LexemeOf(words[i], AfterCall(Scan(words[..i])))]
  {
    assert words[..i + 1][..i] == words[..i];
  }

  // `junk` is what the memory given to each token holds.
  method Tokenize(words: seq<string>, junk: nat -> int) returns (head: Token, ghost s: seq<Token>)
    requires words != []
    ensures TokenList(head, s, Scan(words)) && Untouched(s, junk, 0) && fresh(s)
  {
    hide LexemeOf, TokenList, Scan;
    var x := LexemeOf(words[0], false);
    head := new Token(x, 0, junk(0));
    s := [head];
    FirstScan(words);
    SingleToken(head, x);
    var last, called := head, x.text == "call";
    for i := 1 to |words|
      invariant |s| == i && TokenList(head, s, Scan(words[..i])) && Untouched(s, junk, 0) && fresh(s)
      invariant last == s[i - 1] && called == AfterCall(Scan(words[..i]))
    {
      ScanStep(words, i);
      x := LexemeOf(words[i], called);
      var t := new Token(x, i, junk(i));
      Follow(last, t, head, s, Scan(words[..i]));
      s := s + [t];
      last, called := t, x.text == "call";
    }
    assert words[..|words|] == words;
  }

  lemma FirstScan(words: seq<string>)
    requires words != []
    ensures Scan(words[..1]) == [LexemeOf(words[0], false)]
  {
    ScanStep(words, 0);
  }
}
