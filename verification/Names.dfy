/** The words that the example programs use: their numbers, and that each is taken for what it is. */
module Names {
  import opened Bytecode
  import opened Assembler
  import opened Tokenizer

  function I(s: string): Lexeme { Lexeme(s, Instr) }
  function R(s: string): Lexeme { Lexeme(s, Reg) }
  function N(s: string): Lexeme { Lexeme(s, Num) }

  lemma {:induction false} IndexAt(names: seq<string>, s: string, i: nat, k: nat)
    requires i <= k < |names| && names[k] == s && forall j :: i <= j < k ==> names[j] != s
    ensures IndexIn(names, s, i) == k
    decreases k - i
  {
    if i < k {
      IndexAt(names, s, i + 1, k);
    }
  }

  lemma Registers()
    ensures IndexIn(REG_NAMES, "r0", 0) == 0 && IndexIn(REG_NAMES, "r1", 0) == 1 && IndexIn(REG_NAMES, "r2", 0) == 2
    ensures IndexIn(REG_NAMES, "ax", 0) == 10
  {
    IndexAt(REG_NAMES, "r0", 0, 0);
    IndexAt(REG_NAMES, "r1", 0, 1);
    IndexAt(REG_NAMES, "r2", 0, 2);
    IndexAt(REG_NAMES, "ax", 0, 10);
  }

  lemma Mnemonics0()
    ensures IndexIn(INSTR_NAMES, "halt", 0) == 0
    ensures IndexIn(INSTR_NAMES, "load", 0) == 3
    ensures IndexIn(INSTR_NAMES, "mov", 0) == 5
  {
    hide IndexIn;
    IndexAt(INSTR_NAMES, "halt", 0, 0);
    IndexAt(INSTR_NAMES, "load", 0, 3);
    IndexAt(INSTR_NAMES, "mov", 0, 5);
  }

  lemma Mnemonics1()
    ensures IndexIn(INSTR_NAMES, "mod", 0) == 9
  {
    hide IndexIn;
    IndexAt(INSTR_NAMES, "mod", 0, 9);
  }

  lemma Mnemonics2()
    ensures IndexIn(INSTR_NAMES, "pushr", 0) == 20
    ensures IndexIn(INSTR_NAMES, "push", 0) == 21
  {
    hide IndexIn;
    IndexAt(INSTR_NAMES, "pushr", 0, 20);
    IndexAt(INSTR_NAMES, "push", 0, 21);
  }

  lemma Mnemonics3()
    ensures IndexIn(INSTR_NAMES, "pop", 0) == 22
  {
    hide IndexIn;
    IndexAt(INSTR_NAMES, "pop", 0, 22);
  }

  lemma Mnemonics4()
    ensures IndexIn(INSTR_NAMES, "rjnz", 0) == 29
    ensures IndexIn(INSTR_NAMES, "call", 0) == 32
  {
    hide IndexIn;
    IndexAt(INSTR_NAMES, "rjnz", 0, 29);
    IndexAt(INSTR_NAMES, "call", 0, 32);
  }

  lemma Mnemonics5()
    ensures IndexIn(INSTR_NAMES, "ret", 0) == 33
    ensures IndexIn(INSTR_NAMES, "preg", 0) == 34
  {
    hide IndexIn;
    IndexAt(INSTR_NAMES, "ret", 0, 33);
    IndexAt(INSTR_NAMES, "preg", 0, 34);
  }

  lemma Mnemonics6()
    ensures IndexIn(INSTR_NAMES, "loadr", 0) == 2
    ensures IndexIn(INSTR_NAMES, "add", 0) == 6
    ensures IndexIn(INSTR_NAMES, "decr", 0) == 17
  {
    hide IndexIn;
    IndexAt(INSTR_NAMES, "loadr", 0, 2);
    IndexAt(INSTR_NAMES, "add", 0, 6);
    IndexAt(INSTR_NAMES, "decr", 0, 17);
  }

  lemma Mnemonics7()
    ensures IndexIn(INSTR_NAMES, "jnz", 0) == 28
    ensures IndexIn(INSTR_NAMES, "ptop", 0) == 35
  {
    hide IndexIn;
    IndexAt(INSTR_NAMES, "jnz", 0, 28);
    IndexAt(INSTR_NAMES, "ptop", 0, 35);
  }

  lemma {:induction false} NotIn(names: seq<string>, s: string, i: nat)
    requires i <= |names| && forall j :: i <= j < |names| ==> names[j] != s
    ensures IndexIn(names, s, i) == -1
    decreases |names| - i
  {
    if i < |names| {
      NotIn(names, s, i + 1);
    }
  }

  // A mnemonic is no number, register, label or variable.
  predicate IsPlainWord(w: string) {
    !IsNum(w) && !IsReg(w) && ':' !in w && '$' !in w
  }

  lemma PlainWords0()
    ensures IsPlainWord("halt") && IsPlainWord("load") && IsPlainWord("mov") && IsPlainWord("mod")
  {
    hide IndexIn;
    NotIn(REG_NAMES, "halt", 0);
    NotIn(REG_NAMES, "load", 0);
    NotIn(REG_NAMES, "mov", 0);
    NotIn(REG_NAMES, "mod", 0);
  }

  lemma PlainWords1()
    ensures IsPlainWord("pushr") && IsPlainWord("push") && IsPlainWord("pop") && IsPlainWord("rjnz")
  {
    hide IndexIn;
    NotIn(REG_NAMES, "pushr", 0);
    NotIn(REG_NAMES, "push", 0);
    NotIn(REG_NAMES, "pop", 0);
    NotIn(REG_NAMES, "rjnz", 0);
  }

  lemma PlainWords2()
    ensures IsPlainWord("call") && IsPlainWord("ret") && IsPlainWord("preg") && IsPlainWord("gcd")
    ensures !IsReg("gcd:") && !IsReg("main:")
  {
    hide IsPlainWord, IndexIn;
    PlainWords4();
    NotIn(REG_NAMES, "gcd:", 0);
    NotIn(REG_NAMES, "main:", 0);
  }

  lemma PlainWords4()
    ensures IsPlainWord("call") && IsPlainWord("ret") && IsPlainWord("preg") && IsPlainWord("gcd")
  {
    hide IndexIn;
    NotIn(REG_NAMES, "call", 0);
    NotIn(REG_NAMES, "ret", 0);
    NotIn(REG_NAMES, "preg", 0);
    NotIn(REG_NAMES, "gcd", 0);
  }

  lemma PlainWords5()
    ensures IsPlainWord("loadr") && IsPlainWord("add") && IsPlainWord("decr")
  {
    hide IndexIn;
    NotIn(REG_NAMES, "loadr", 0);
    NotIn(REG_NAMES, "add", 0);
    NotIn(REG_NAMES, "decr", 0);
  }

  lemma PlainWords3()
    ensures IsPlainWord("loadr") && IsPlainWord("add") && IsPlainWord("decr")
    ensures IsPlainWord("jnz") && IsPlainWord("ptop")
  {
    hide IndexIn;
    PlainWords5();
    NotIn(REG_NAMES, "jnz", 0);
    NotIn(REG_NAMES, "ptop", 0);
  }

  lemma {:induction false} CountAtMost(xs: seq<Lexeme>, a: nat, b: nat)
    requires forall i :: 0 <= i < |xs| && xs[i].kind == Lbl ==> i == a || i == b
    ensures LabelCount(xs) <= (if a < |xs| then 1 else 0) + (if b < |xs| && b != a then 1 else 0)
  {
    if xs != [] {
      CountAtMost(xs[..|xs| - 1], a, b);
    }
  }

  lemma SpellsAll(xs: seq<Lexeme>)
    ensures |SpellAll(xs)| == |xs|
  {
  }
}
