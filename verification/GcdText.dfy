/** From the words of examples/carp/gcd.carp to its result: they are tokenized and assembled into the
    image that `Gcd` reasons about, and the machine object runs that image.
  */
module GcdText {
  import opened Bytecode
  import opened Tables
  import opened Assembler
  import opened Vm
  import opened Tokenizer
  import opened Names
  import opened Decimals
  import Program
  import Gcd
  import Machines
  import Simulation

  // The words of the text, classified, with ps and qs in place of the two numbers.
  function Text(ps: string, qs: string): seq<Lexeme> {
    [ Lexeme("gcd", Lbl),
      I("load"), N("-4"),
      I("load"), N("-3"),
      I("pop"), R("r1"),
      I("pushr"), R("r1"),
      I("mod"),
      I("mov"), R("r0"), R("r1"),
      I("pop"), R("r1"),
      I("pushr"), R("r0"),
      I("pushr"), R("r1"),
      I("rjnz"), N("-14"),
      I("pop"), R("ax"),
      I("ret"),
      Lexeme("main", Lbl),
      I("push"), N(ps),
      I("push"), N(qs),
      I("call"), Lexeme("gcd", Func),
      I("preg"), R("ax"),
      I("halt"), N("0") ]
  }

  lemma Numbers()
    ensures Atoi("-4") == -4 && Atoi("-3") == -3 && Atoi("-14") == -14
  {
    assert "-4"[1..] == "4" && "-3"[1..] == "3" && "-14"[1..] == "14";
    assert "4"[..0] == "" && "3"[..0] == "" && "14"[..1] == "1" && "1"[..0] == "";
    assert Digits("") == 0 && Digits("1") == 1;
  }

  // ---------------------------------------------------------------- the two labels

  lemma TextLabels(ps: string, qs: string)
    ensures var xs := Text(ps, qs);
      && |xs| == 35 && Plain(xs)
      && xs[0] == Lexeme("gcd", Lbl) && xs[24] == Lexeme("main", Lbl) && xs[30] == Lexeme("gcd", Func)
      && forall i :: 0 <= i < |xs| ==> (xs[i].kind == Lbl <==> i == 0 || i == 24)
                                       && (xs[i].kind == Func <==> i == 30)
  {
    TextEnds(ps, qs);
    hide Text;
    var xs := Text(ps, qs);
    forall i | 0 <= i < 35
      ensures xs[i].kind != Undef && (xs[i].kind == Lbl <==> i == 0 || i == 24) && (xs[i].kind == Func <==> i == 30)
    {
      if i < 18 {
        TextKinds0(ps, qs, i);
      } else {
        TextKinds1(ps, qs, i);
      }
    }
  }

  lemma TextEnds(ps: string, qs: string)
    ensures var xs := Text(ps, qs);
      |xs| == 35 && xs[0] == Lexeme("gcd", Lbl) && xs[24] == Lexeme("main", Lbl) && xs[30] == Lexeme("gcd", Func)
  {
  }

  predicate TextKind(xs: seq<Lexeme>, i: int)
    requires 0 <= i < |xs|
  {
    && xs[i].kind != Undef && (xs[i].kind == Lbl <==> i == 0 || i == 24) && (xs[i].kind == Func <==> i == 30)
  }

  lemma TextKinds0(ps: string, qs: string, i: int)
    requires 0 <= i < 18
    ensures |Text(ps, qs)| == 35 && TextKind(Text(ps, qs), i)
  {
  }

  lemma TextKinds1(ps: string, qs: string, i: int)
    requires 18 <= i < 35
    ensures |Text(ps, qs)| == 35 && TextKind(Text(ps, qs), i)
  {
  }

  lemma TextFits(ps: string, qs: string)
    ensures LabelsFit(Text(ps, qs))
  {
    hide Text;
    TextLabels(ps, qs);
    CountAtMost(Text(ps, qs), 0, 24);
    assert "gcd" != "main";
    TwoLabelsFit(Text(ps, qs));
  }

  lemma TextDefinitions(ps: string, qs: string)
    ensures Definition(Text(ps, qs), "main") == Some(24)
    ensures Definition(Text(ps, qs)[..30], "gcd") == Some(0)
  {
    hide Text;
    TextLabels(ps, qs);
    assert "gcd" != "main";
    DefinitionIs(Text(ps, qs), "main");
    DefinitionIs(Text(ps, qs)[..30], "gcd");
    assert Text(ps, qs)[..30][0] == Text(ps, qs)[0];
  }

  // ---------------------------------------------------------------- the words

  lemma Words(ps: string, qs: string, junk: nat -> int, i: nat)
    requires i < 34
    ensures |Text(ps, qs)| == 35 && Meaning(Text(ps, qs), junk, i) == Gcd.Image(Atoi(ps), Atoi(qs))[i]
  {
    hide IndexIn, Atoi, Definition;
    Mnemonics0();
    Mnemonics1();
    Mnemonics2();
    Mnemonics3();
    Mnemonics4();
    Mnemonics5();
    Registers();
    Numbers();
    TextDefinitions(ps, qs);
    var x := Text(ps, qs)[i];
    assert Text(ps, qs)[30] == Lexeme("gcd", Func);
  }

  /** The text assembles to the image, with the numbers its two `push` operands denote, and `main` at
      position 24. */
  lemma TextAssembles(ps: string, qs: string, junk: nat -> int)
    ensures Values(Text(ps, qs), junk, false).Some?
    ensures LoadedPart(Values(Text(ps, qs), junk, false).value) == Gcd.Image(Atoi(ps), Atoi(qs))
    ensures Get(Labels(Text(ps, qs), false), "main") == Some(24)
  {
    hide Text, Values, Labels, Meaning, LabelsFit, Get, Definition;
    var xs := Text(ps, qs);
    TextLabels(ps, qs);
    TextFits(ps, qs);
    TextDefinitions(ps, qs);
    LabelsAnswer(xs, false);
    AssemblyMeans(xs, junk, false);
    forall i: nat | i < 34
      ensures Meaning(xs, junk, i) == Gcd.Image(Atoi(ps), Atoi(qs))[i]
    {
      Words(ps, qs, junk, i);
    }
  }

  // ---------------------------------------------------------------- the spelling

  lemma NumbersAndRegisters()
    ensures IsNum("-4") && IsNum("-3") && IsNum("-14") && IsNum("0")
    ensures !IsNum("r0") && !IsNum("r1") && !IsNum("ax") && IsReg("r0") && IsReg("r1") && IsReg("ax")
  {
    Registers();
  }

  lemma CallsInText(ps: string, qs: string, i: nat)
    requires i < 35 && IsNum(ps) && IsNum(qs)
    ensures AfterCall(Text(ps, qs)[..i]) <==> i == 30
  {
    assert !IsNum("call");
    var xs := Text(ps, qs);
    if i > 0 {
      assert xs[..i][|xs[..i]| - 1] == xs[i - 1];
    }
  }

  lemma TextFitting(ps: string, qs: string)
    requires IsNum(ps) && IsNum(qs)
    ensures AllFitting(Text(ps, qs))
  {
    forall i: nat | i < 35 ensures Fitting(Text(ps, qs)[i], AfterCall(Text(ps, qs)[..i])) {
      CallsInText(ps, qs, i);
      WordFits(ps, qs, i);
    }
  }

  lemma WordFits(ps: string, qs: string, i: nat)
    requires i < 35 && IsNum(ps) && IsNum(qs)
    ensures Fitting(Text(ps, qs)[i], i == 30)
  {
    hide IsNum, IsReg, IndexIn;
    Mnemonics0();
    Mnemonics1();
    Mnemonics2();
    Mnemonics3();
    Mnemonics4();
    Mnemonics5();
    PlainWords0();
    PlainWords1();
    PlainWords2();
    NumbersAndRegisters();
    assert "gcd" + ":" == "gcd:" && "main" + ":" == "main:";
  }

  /** carp_run_program on the words of the text, with memory for its labels: it stops, and unless its
      stack was refused memory it has printed the greatest common divisor of the two numbers and
      returns 0. */
  method RunText(env: Env, junk: nat -> int, words: seq<string>, ghost ps: string, ghost qs: string)
    returns (ext: int, machine: Machines.Machine?, ghost g: int)
    requires words == SpellAll(Text(ps, qs))
    requires IsNum(ps) && IsNum(qs) && Atoi(ps) >= 0 && Atoi(qs) >= 1
    ensures machine != null && machine.Valid() && Gcd.IsGcd(g, Atoi(ps), Atoi(qs))
    ensures ext == machine.Snap().regs[EXT]
    ensures (ext == 1 && Simulation.Stopped(env, machine.Snap())) || (ext == 0 && machine.Snap().out == [g])
  {
    hide Text, Values, Labels, Gcd.Image, Gcd.IsGcd, Turns, Scan, AllFitting, SpellAll;
    TextLabels(ps, qs);
    TextFitting(ps, qs);
    TextAssembles(ps, qs, junk);
    ScanSpelled(Text(ps, qs));
    SpellsAll(Text(ps, qs));
    ghost var n;
    n, g := Gcd.GcdProgram(env, Atoi(ps), Atoi(qs));
    var ok;
    ok, ext, machine := Program.RunWords(env, words, junk, (i: nat) => true, n);
  }

  /** The same for any two integers, spelled in decimal. */
  method RunNumbers(env: Env, junk: nat -> int, words: seq<string>, ghost a: int, ghost b: int)
    returns (ext: int, machine: Machines.Machine?, ghost g: int)
    requires words == SpellAll(Text(Spelling(a), Spelling(b))) && a >= 0 && b >= 1
    ensures machine != null && machine.Valid() && Gcd.IsGcd(g, a, b)
    ensures ext == machine.Snap().regs[EXT]
    ensures (ext == 1 && Simulation.Stopped(env, machine.Snap())) || (ext == 0 && machine.Snap().out == [g])
  {
    hide Text, SpellAll, Spelling, Gcd.IsGcd;
    SpellingReads(a);
    SpellingReads(b);
    ext, machine, g := RunText(env, junk, words, Spelling(a), Spelling(b));
  }
}
