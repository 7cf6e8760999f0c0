/** The example programs as they stand, word for word: what running the files prints. */
module ExampleFiles {
  import opened Bytecode
  import opened Vm
  import opened Assembler
  import opened Tokenizer
  import opened Decimals
  import Gcd
  import Fibonacci
  import Countdown
  import GcdText
  import LoopTexts
  import Machines
  import Simulation

  // examples/carp/gcd.carp
  const GCD: seq<string> :=
    [ "gcd:", "load", "-4", "load", "-3", "pop", "r1", "pushr", "r1", "mod", "mov", "r0", "r1", "pop",
      "r1", "pushr", "r0", "pushr", "r1", "rjnz", "-14", "pop", "ax", "ret", "main:", "push", "112233",
      "push", "975555", "call", "gcd", "preg", "ax", "halt", "0" ]

  // examples/carp/countdown.carp
  const COUNTDOWN: seq<string> :=
    [ "main:", "loadr", "r0", "10", "pushr", "r0", "ptop", "decr", "r0", "jnz", "3", "halt", "0" ]

  // examples/carp/fibonacci.carp
  const FIBONACCI: seq<string> :=
    [ "main:", "loadr", "r2", "10", "loadr", "r0", "0", "loadr", "r1", "1", "preg", "r0", "pushr", "r0",
      "pushr", "r1", "add", "mov", "r0", "r1", "pop", "r1", "decr", "r2", "pushr", "r2", "jnz", "9",
      "halt", "0" ]

  lemma Constants()
    ensures Spelling(112233) == "112233" && Spelling(975555) == "975555" && Spelling(10) == "10"
  {
    hide Unsigned;
    First();
    Second();
    Third();
  }

  lemma First()
    ensures Unsigned(112233) == "112233"
  {
    assert Unsigned(1) == "1" && Unsigned(11) == "11" && Unsigned(112) == "112";
    assert Unsigned(1122) == "1122" && Unsigned(11223) == "11223";
  }

  lemma Second()
    ensures Unsigned(975555) == "975555"
  {
    assert Unsigned(9) == "9" && Unsigned(97) == "97" && Unsigned(975) == "975";
    assert Unsigned(9755) == "9755" && Unsigned(97555) == "97555";
  }

  lemma Third()
    ensures Unsigned(10) == "10"
  {
    assert Unsigned(1) == "1";
  }

  lemma GcdWord0(i: nat)
    requires 0 <= i < 6
    ensures |GcdText.Text("112233", "975555")| == 35 && Spell(GcdText.Text("112233", "975555")[i]) == GCD[i]
  {
  }

  lemma GcdWord1(i: nat)
    requires 6 <= i < 12
    ensures |GcdText.Text("112233", "975555")| == 35 && Spell(GcdText.Text("112233", "975555")[i]) == GCD[i]
  {
  }

  lemma GcdWord2(i: nat)
    requires 12 <= i < 18
    ensures |GcdText.Text("112233", "975555")| == 35 && Spell(GcdText.Text("112233", "975555")[i]) == GCD[i]
  {
  }

  lemma GcdWord3(i: nat)
    requires 18 <= i < 24
    ensures |GcdText.Text("112233", "975555")| == 35 && Spell(GcdText.Text("112233", "975555")[i]) == GCD[i]
  {
  }

  lemma GcdWord4(i: nat)
    requires 24 <= i < 30
    ensures |GcdText.Text("112233", "975555")| == 35 && Spell(GcdText.Text("112233", "975555")[i]) == GCD[i]
  {
  }

  lemma GcdWord5(i: nat)
    requires 30 <= i < 35
    ensures |GcdText.Text("112233", "975555")| == 35 && Spell(GcdText.Text("112233", "975555")[i]) == GCD[i]
  {
  }

  lemma GcdWords()
    ensures SpellAll(GcdText.Text("112233", "975555")) == GCD
  {
    hide GcdText.Text, Spell;
    GcdText.TextEnds("112233", "975555");
    forall i: nat | i < 35 ensures SpellAll(GcdText.Text("112233", "975555"))[i] == GCD[i] {
      if i < 6 {
        GcdWord0(i);
      } else if i < 12 {
        GcdWord1(i);
      } else if i < 18 {
        GcdWord2(i);
      } else if i < 24 {
        GcdWord3(i);
      } else if i < 30 {
        GcdWord4(i);
      } else {
        GcdWord5(i);
      }
    }
  }

  lemma CountdownWord(i: nat)
    requires i < 13
    ensures |LoopTexts.CountdownText("10")| == 13 && Spell(LoopTexts.CountdownText("10")[i]) == COUNTDOWN[i]
  {
  }

  lemma CountdownWords()
    ensures SpellAll(LoopTexts.CountdownText("10")) == COUNTDOWN
  {
    hide LoopTexts.CountdownText, Spell;
    LoopTexts.CountdownLabels("10");
    forall i: nat | i < 13 ensures SpellAll(LoopTexts.CountdownText("10"))[i] == COUNTDOWN[i] { CountdownWord(i); }
  }

  lemma FibonacciWord0(i: nat)
    requires 0 <= i < 10
    ensures |LoopTexts.FibonacciText("10")| == 30 && Spell(LoopTexts.FibonacciText("10")[i]) == FIBONACCI[i]
  {
  }

  lemma FibonacciWord1(i: nat)
    requires 10 <= i < 20
    ensures |LoopTexts.FibonacciText("10")| == 30 && Spell(LoopTexts.FibonacciText("10")[i]) == FIBONACCI[i]
  {
  }

  lemma FibonacciWord2(i: nat)
    requires 20 <= i < 30
    ensures |LoopTexts.FibonacciText("10")| == 30 && Spell(LoopTexts.FibonacciText("10")[i]) == FIBONACCI[i]
  {
  }

  lemma FibonacciWords()
    ensures SpellAll(LoopTexts.FibonacciText("10")) == FIBONACCI
  {
    hide LoopTexts.FibonacciText, Spell;
    LoopTexts.FibonacciLabels("10");
    forall i: nat | i < 30 ensures SpellAll(LoopTexts.FibonacciText("10"))[i] == FIBONACCI[i] {
      if i < 10 {
        FibonacciWord0(i);
      } else if i < 20 {
        FibonacciWord1(i);
      } else {
        FibonacciWord2(i);
      }
    }
  }

  lemma GcdOfConstants()
    ensures Gcd.IsGcd(57, 112233, 975555)
  {
    assert 112233 == 57 * 1969 && 975555 == 57 * 17115;
    forall d | Gcd.Divides(d, 112233) && Gcd.Divides(d, 975555) ensures Gcd.Divides(d, 57) {
      var j :| 112233 == d * j;
      var k :| 975555 == d * k;
      assert 57 == d * (978 * k - 8501 * j) by {
        assert d * (978 * k - 8501 * j) == 978 * (d * k) - 8501 * (d * j);
      }
    }
  }

  /** Running the files: each run ends, and was refused stack memory, or has printed this and returns 0. */
  method RunGcd(env: Env, junk: nat -> int) returns (ext: int, machine: Machines.Machine?)
    ensures machine != null && machine.Valid()
    ensures (ext == 1 && Simulation.Stopped(env, machine.Snap())) || (ext == 0 && machine.Snap().out == [57])
  {
    hide GcdText.Text, SpellAll, Spelling, Gcd.IsGcd;
    Constants();
    GcdWords();
    ghost var g;
    ext, machine, g := GcdText.RunNumbers(env, junk, GCD, 112233, 975555);
    GcdOfConstants();
    Gcd.GcdIsUnique(g, 57, 112233, 975555);
  }

  method RunCountdown(env: Env, junk: nat -> int) returns (ext: int, machine: Machines.Machine?)
    ensures machine != null && machine.Valid()
    ensures (ext == 1 && Simulation.Stopped(env, machine.Snap()))
            || (ext == 0 && machine.Snap().out == [10, 9, 8, 7, 6, 5, 4, 3, 2, 1, 0])
  {
    hide LoopTexts.CountdownText, SpellAll, Spelling;
    Constants();
    CountdownWords();
    ext, machine := LoopTexts.RunCountdownFrom(env, junk, COUNTDOWN, 10);
    assert Countdown.Down(10, 0) == [10, 9, 8, 7, 6, 5, 4, 3, 2, 1, 0];
  }

  lemma FirstTen()
    ensures Fibonacci.Fibs(10) == [0, 1, 1, 2, 3, 5, 8, 13, 21, 34] && Fibonacci.Fib(11) == 89
  {
    assert Fibonacci.Fib(4) == 3 && Fibonacci.Fib(5) == 5;
    assert Fibonacci.Fib(6) == 8 && Fibonacci.Fib(7) == 13;
    assert Fibonacci.Fib(8) == 21 && Fibonacci.Fib(9) == 34;
    assert Fibonacci.Fib(10) == 55;
  }

  method RunFibonacci(env: Env, junk: nat -> int) returns (ext: int, machine: Machines.Machine?)
    ensures machine != null && machine.Valid()
    ensures (ext == 1 && Simulation.Stopped(env, machine.Snap()))
            || (ext == 0 && machine.Snap().out == [0, 1, 1, 2, 3, 5, 8, 13, 21, 34])
  {
    hide LoopTexts.FibonacciText, SpellAll, Spelling, Fibonacci.Fibs;
    Constants();
    FibonacciWords();
    FirstTen();
    ext, machine := LoopTexts.RunFibonacciFrom(env, junk, FIBONACCI, 10);
  }
}
