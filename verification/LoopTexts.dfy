/** examples/carp/countdown.carp and examples/carp/fibonacci.carp from their words to their results. */
module LoopTexts {
  import opened Bytecode
  import opened Tables
  import opened Assembler
  import opened Vm
  import opened Tokenizer
  import opened Names
  import opened Decimals
  import Program
  import Countdown
  import Fibonacci
  import Machines
  import Simulation

  function CountdownText(ns: string): seq<Lexeme> {
    [ Lexeme("main", Lbl),
      I("loadr"), R("r0"), N(ns),
      I("pushr"), R("r0"),
      I("ptop"),
      I("decr"), R("r0"),
      I("jnz"), N("3"),
      I("halt"), N("0") ]
  }

  function FibonacciText(ns: string): seq<Lexeme> {
    [ Lexeme("main", Lbl),
      I("loadr"), R("r2"), N(ns),
      I("loadr"), R("r0"), N("0"),
      I("loadr"), R("r1"), N("1"),
      I("preg"), R("r0"),
      I("pushr"), R("r0"),
      I("pushr"), R("r1"),
      I("add"),
      I("mov"), R("r0"), R("r1"),
      I("pop"), R("r1"),
      I("decr"), R("r2"),
      I("pushr"), R("r2"),
      I("jnz"), N("9"),
      I("halt"), N("0") ]
  }

  // A text with `main:` in front, no other label and no call.
  predicate MainOnly(xs: seq<Lexeme>) {
    && xs != [] && xs[0] == Lexeme("main", Lbl) && Plain(xs)
    && forall i :: 0 < i < |xs| ==> xs[i].kind != Lbl && xs[i].kind != Func
  }

  lemma MainOnlyAssembles(xs: seq<Lexeme>, junk: nat -> int)
    requires MainOnly(xs)
    ensures Values(xs, junk, false).Some? && Get(Labels(xs, false), "main") == Some(0)
    ensures LoadedPart(Values(xs, junk, false).value) ==
            seq(|xs| - 1, i requires 0 <= i < |xs| - 1 => Meaning(xs, junk, i))
  {
    hide Values, Labels, Meaning, LabelsFit, Get, Definition;
    CountAtMost(xs, 0, 0);
    TwoLabelsFit(xs);
    LabelsAnswer(xs, false);
    DefinitionIs(xs, "main");
    AssemblyMeans(xs, junk, false);
  }

  lemma Digits1()
    ensures Atoi("0") == 0 && Atoi("1") == 1 && Atoi("3") == 3 && Atoi("9") == 9
    ensures IsNum("0") && IsNum("1") && IsNum("3") && IsNum("9")
  {
    assert "0"[..0] == "" && "1"[..0] == "" && "3"[..0] == "" && "9"[..0] == "";
    assert Digits("") == 0;
  }

  lemma RegistersSpelled()
    ensures !IsNum("r0") && !IsNum("r1") && !IsNum("r2") && IsReg("r0") && IsReg("r1") && IsReg("r2")
  {
    Registers();
  }

  // ---------------------------------------------------------------- countdown.carp

  lemma CountdownWords(ns: string, junk: nat -> int, i: nat)
    requires i < 12
    ensures Meaning(CountdownText(ns), junk, i) == Countdown.Image(Atoi(ns))[i]
  {
    hide IndexIn, Atoi, Definition;
    Mnemonics0();
    Mnemonics2();
    Mnemonics6();
    Mnemonics7();
    Registers();
    Digits1();
    var x := CountdownText(ns)[i];
  }

  lemma CountdownLabels(ns: string)
    ensures |CountdownText(ns)| == 13 && MainOnly(CountdownText(ns))
  {
  }

  /** The text assembles to the image, with `main` at position 0. */
  lemma CountdownAssembles(ns: string, junk: nat -> int)
    ensures Values(CountdownText(ns), junk, false).Some?
    ensures LoadedPart(Values(CountdownText(ns), junk, false).value) == Countdown.Image(Atoi(ns))
    ensures Get(Labels(CountdownText(ns), false), "main") == Some(0)
  {
    hide CountdownText, Values, Labels, Meaning, Get, MainOnly, Atoi;
    CountdownLabels(ns);
    MainOnlyAssembles(CountdownText(ns), junk);
    forall i: nat | i < 12 ensures Meaning(CountdownText(ns), junk, i) == Countdown.Image(Atoi(ns))[i] {
      CountdownWords(ns, junk, i);
    }
  }

  lemma CountdownFits(ns: string, i: nat)
    requires i < 13 && IsNum(ns)
    ensures Fitting(CountdownText(ns)[i], false) && CountdownText(ns)[i].text != "call"
  {
    hide IsNum, IsReg, IndexIn;
    Mnemonics0();
    Mnemonics2();
    Mnemonics6();
    Mnemonics7();
    PlainWords0();
    PlainWords1();
    PlainWords2();
    PlainWords3();
    Digits1();
    RegistersSpelled();
    assert "main" + ":" == "main:";
    var x := CountdownText(ns)[i];
  }

  // A text in which "call" does not occur is scanned word by word.
  lemma CallFree(xs: seq<Lexeme>)
    requires forall i: nat :: i < |xs| ==> Fitting(xs[i], false) && xs[i].text != "call"
    ensures AllFitting(xs)
  {
    hide Fitting;
    forall i | 0 <= i < |xs| ensures !AfterCall(xs[..i]) {
      if i > 0 { assert xs[..i][|xs[..i]| - 1] == xs[i - 1]; }
    }
  }

  /** carp_run_program on the words of the text: it stops, and unless its stack was refused memory it
      has printed n down to 0 and returns 0. */
  method RunCountdown(env: Env, junk: nat -> int, words: seq<string>, ghost ns: string)
    returns (ext: int, machine: Machines.Machine?)
    requires words == SpellAll(CountdownText(ns))
    requires IsNum(ns) && Atoi(ns) >= 0 && InWord(Atoi(ns))
    ensures machine != null && machine.Valid() && ext == machine.Snap().regs[EXT]
    ensures (ext == 1 && Simulation.Stopped(env, machine.Snap()))
            || (ext == 0 && machine.Snap().out == Countdown.Down(Atoi(ns), 0))
  {
    hide CountdownText, Values, Labels, Countdown.Image, Turns, Scan, AllFitting, SpellAll, Countdown.Down, Atoi, IsNum;
    hide Fitting, MainOnly;
    ghost var xs := CountdownText(ns);
    CountdownLabels(ns);
    forall i: nat | i < 13 ensures Fitting(xs[i], false) && xs[i].text != "call" { CountdownFits(ns, i); }
    CallFree(xs);
    CountdownAssembles(ns, junk);
    ScanSpelled(xs);
    SpellsAll(xs);
    ghost var n := Countdown.CountdownProgram(env, Atoi(ns));
    var ok;
    ok, ext, machine := Program.RunWords(env, words, junk, (i: nat) => true, n);
  }

  /** The same for any such integer, spelled in decimal. */
  method RunCountdownFrom(env: Env, junk: nat -> int, words: seq<string>, ghost n: int)
    returns (ext: int, machine: Machines.Machine?)
    requires words == SpellAll(CountdownText(Spelling(n))) && n >= 0 && InWord(n)
    ensures machine != null && machine.Valid() && ext == machine.Snap().regs[EXT]
    ensures (ext == 1 && Simulation.Stopped(env, machine.Snap()))
            || (ext == 0 && machine.Snap().out == Countdown.Down(n, 0))
  {
    hide CountdownText, SpellAll, Spelling;
    SpellingReads(n);
    ext, machine := RunCountdown(env, junk, words, Spelling(n));
  }

  // ---------------------------------------------------------------- fibonacci.carp

  lemma FibonacciWordsMain(ns: string, junk: nat -> int, i: nat)
    requires i < 10
    ensures Meaning(FibonacciText(ns), junk, i) == Fibonacci.Image(Atoi(ns))[i]
  {
    hide IndexIn, Atoi, Definition;
    Mnemonics6();
    Registers();
    Digits1();
    var x := FibonacciText(ns)[i];
  }

  lemma FibonacciWordsSum(ns: string, junk: nat -> int, i: nat)
    requires 10 <= i < 20
    ensures Meaning(FibonacciText(ns), junk, i) == Fibonacci.Image(Atoi(ns))[i]
  {
    hide IndexIn, Atoi, Definition;
    Mnemonics0();
    Mnemonics2();
    Mnemonics5();
    Mnemonics6();
    Registers();
    var x := FibonacciText(ns)[i];
  }

  lemma FibonacciWordsTest(ns: string, junk: nat -> int, i: nat)
    requires 20 <= i < 29
    ensures Meaning(FibonacciText(ns), junk, i) == Fibonacci.Image(Atoi(ns))[i]
  {
    hide IndexIn, Atoi, Definition;
    Mnemonics0();
    Mnemonics2();
    Mnemonics3();
    Mnemonics6();
    Mnemonics7();
    Registers();
    Digits1();
    var x := FibonacciText(ns)[i];
  }

  lemma FibonacciWords(ns: string, junk: nat -> int, i: nat)
    requires i < 29
    ensures Meaning(FibonacciText(ns), junk, i) == Fibonacci.Image(Atoi(ns))[i]
  {
    FibonacciLabels(ns);
    hide Meaning, FibonacciText, Atoi, MainOnly;
    if i < 10 {
      FibonacciWordsMain(ns, junk, i);
    } else if i < 20 {
      FibonacciWordsSum(ns, junk, i);
    } else {
      FibonacciWordsTest(ns, junk, i);
    }
  }

  lemma FibonacciLabels(ns: string)
    ensures |FibonacciText(ns)| == 30 && MainOnly(FibonacciText(ns))
  {
  }

  /** The text assembles to the image, with `main` at position 0. */
  lemma FibonacciAssembles(ns: string, junk: nat -> int)
    ensures Values(FibonacciText(ns), junk, false).Some?
    ensures LoadedPart(Values(FibonacciText(ns), junk, false).value) == Fibonacci.Image(Atoi(ns))
    ensures Get(Labels(FibonacciText(ns), false), "main") == Some(0)
  {
    hide FibonacciText, Values, Labels, Meaning, Get, MainOnly, Atoi;
    FibonacciLabels(ns);
    MainOnlyAssembles(FibonacciText(ns), junk);
    forall i: nat | i < 29 ensures Meaning(FibonacciText(ns), junk, i) == Fibonacci.Image(Atoi(ns))[i] {
      FibonacciWords(ns, junk, i);
    }
  }

  lemma FibonacciFitsMain(ns: string, i: nat)
    requires i < 10 && IsNum(ns)
    ensures Fitting(FibonacciText(ns)[i], false) && FibonacciText(ns)[i].text != "call"
  {
    hide IsNum, IsReg, IndexIn;
    Mnemonics6();
    PlainWords2();
    PlainWords3();
    Digits1();
    RegistersSpelled();
    assert "main" + ":" == "main:";
    var x := FibonacciText(ns)[i];
  }

  lemma FibonacciFitsSum(ns: string, i: nat)
    requires 10 <= i < 20 && IsNum(ns)
    ensures Fitting(FibonacciText(ns)[i], false) && FibonacciText(ns)[i].text != "call"
  {
    hide IsNum, IsReg, IndexIn;
    Mnemonics0();
    Mnemonics2();
    Mnemonics5();
    Mnemonics6();
    PlainWords0();
    PlainWords1();
    PlainWords2();
    PlainWords3();
    RegistersSpelled();
    var x := FibonacciText(ns)[i];
  }

  lemma FibonacciFitsTest(ns: string, i: nat)
    requires 20 <= i < 30 && IsNum(ns)
    ensures Fitting(FibonacciText(ns)[i], false) && FibonacciText(ns)[i].text != "call"
  {
    hide IsNum, IsReg, IndexIn;
    Mnemonics0();
    Mnemonics2();
    Mnemonics3();
    Mnemonics6();
    Mnemonics7();
    PlainWords0();
    PlainWords1();
    PlainWords3();
    Digits1();
    RegistersSpelled();
    var x := FibonacciText(ns)[i];
  }

  lemma FibonacciFits(ns: string, i: nat)
    requires i < 30 && IsNum(ns)
    ensures Fitting(FibonacciText(ns)[i], false) && FibonacciText(ns)[i].text != "call"
  {
    hide Fitting, FibonacciText, IsNum;
    FibonacciLabels(ns);
    if i < 10 {
      FibonacciFitsMain(ns, i);
    } else if i < 20 {
      FibonacciFitsSum(ns, i);
    } else {
      FibonacciFitsTest(ns, i);
    }
  }

  /** carp_run_program on the words of the text: it stops, and unless its stack was refused memory it
      has printed the first n Fibonacci numbers and returns 0. */
  method RunFibonacci(env: Env, junk: nat -> int, words: seq<string>, ghost ns: string)
    returns (ext: int, machine: Machines.Machine?)
    requires words == SpellAll(FibonacciText(ns))
    requires IsNum(ns) && Atoi(ns) >= 1 && InWord(Atoi(ns)) && InWord(Fibonacci.Fib(Atoi(ns) + 1))
    ensures machine != null && machine.Valid() && ext == machine.Snap().regs[EXT]
    ensures (ext == 1 && Simulation.Stopped(env, machine.Snap()))
            || (ext == 0 && machine.Snap().out == Fibonacci.Fibs(Atoi(ns)))
  {
    hide FibonacciText, Values, Labels, Fibonacci.Image, Turns, Scan, AllFitting, SpellAll, Fibonacci.Fibs, Atoi, IsNum;
    hide Fitting, MainOnly;
    ghost var xs := FibonacciText(ns);
    FibonacciLabels(ns);
    forall i: nat | i < 30 ensures Fitting(xs[i], false) && xs[i].text != "call" { FibonacciFits(ns, i); }
    CallFree(xs);
    FibonacciAssembles(ns, junk);
    ScanSpelled(xs);
    SpellsAll(xs);
    ghost var n := Fibonacci.FibonacciProgram(env, Atoi(ns));
    var ok;
    ok, ext, machine := Program.RunWords(env, words, junk, (i: nat) => true, n);
  }

  /** The same for any such integer, spelled in decimal. */
  method RunFibonacciFrom(env: Env, junk: nat -> int, words: seq<string>, ghost n: int)
    returns (ext: int, machine: Machines.Machine?)
    requires words == SpellAll(FibonacciText(Spelling(n))) && n >= 1 && InWord(n) && InWord(Fibonacci.Fib(n + 1))
    ensures machine != null && machine.Valid() && ext == machine.Snap().regs[EXT]
    ensures (ext == 1 && Simulation.Stopped(env, machine.Snap()))
            || (ext == 0 && machine.Snap().out == Fibonacci.Fibs(n))
  {
    hide FibonacciText, SpellAll, Spelling;
    SpellingReads(n);
    ext, machine := RunFibonacci(env, junk, words, Spelling(n));
  }
}
