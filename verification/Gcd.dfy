/** examples/carp/gcd.carp, with any two numbers pushed in place of its constants, computes their
    greatest common divisor.  The loop is a backward `rjnz -14` that lands on the operand word `r1`
    of an instruction it has already run; that word is 1, which is also the opcode of NOP.
  */
module Gcd {
  import opened Bytecode
  import opened Runs
  import opened Vm
  import opened CallStack
  import opened Simulation
  import opened Steps

  // The loaded image: 35 words are assembled and all but the last are loaded.
  function Image(p: int, q: int): seq<int> {
    [ 1,              //  0  gcd:
      3, -4,          //  1  load -4
      3, -3,          //  3  load -3
      22, 1,          //  5  pop r1
      20, 1,          //  7  pushr r1
      9,              //  9  mod
      5, 0, 1,        // 10  mov r0, r1
      22, 1,          // 13  pop r1
      20, 0,          // 15  pushr r0
      20, 1,          // 17  pushr r1
      29, -14,        // 19  rjnz -14
      22, 10,         // 21  pop ax
      33,             // 23  ret
      1,              // 24  main:
      21, p,          // 25  push p
      21, q,          // 27  push q
      32, 0,          // 29  call gcd
      34, 10,         // 31  preg ax
      0 ]             // 33  halt
  }

  // ---------------------------------------------------------------- divisors

  ghost predicate Divides(d: int, x: int) {
    exists k :: x == d * k
  }

  ghost predicate IsGcd(g: int, x: int, y: int) {
    g > 0 && Divides(g, x) && Divides(g, y) && forall d :: Divides(d, x) && Divides(d, y) ==> Divides(d, g)
  }

  lemma DividesCombination(d: int, x: int, y: int, m: int)
    requires Divides(d, x) && Divides(d, y)
    ensures Divides(d, x + m * y)
  {
    var j :| x == d * j;
    var k :| y == d * k;
    assert x + m * y == d * (j + m * k) by {
      assert m * (d * k) == d * (m * k);
    }
  }

  // There is only one.
  lemma GcdIsUnique(g: int, h: int, x: int, y: int)
    requires IsGcd(g, x, y) && IsGcd(h, x, y)
    ensures g == h
  {
    assert Divides(g, h) && Divides(h, g);
    DividesLess(g, h);
    DividesLess(h, g);
  }

  lemma DividesLess(d: int, x: int)
    requires Divides(d, x) && d > 0 && x > 0
    ensures d <= x
  {
    var k :| x == d * k;
    assert k <= 0 ==> d * k <= 0;
    assert k >= 1 ==> d * (k - 1) >= 0;
    assert d * k == d * (k - 1) + d;
  }

  // Euclid's step.
  lemma GcdStep(g: int, x: int, y: int)
    requires y > 0 && IsGcd(g, y, x % y)
    ensures IsGcd(g, x, y)
  {
    var m := x / y;
    assert x % y + m * y == x;
    assert x + (-m) * y == x % y;
    DividesCombination(g, x % y, y, m);
    forall d | Divides(d, x) && Divides(d, y) ensures Divides(d, g) {
      DividesCombination(d, x, y, -m);
    }
  }

  lemma GcdBase(x: int)
    requires x > 0
    ensures IsGcd(x, x, 0)
  {
    assert x == x * 1 && 0 == x * 0;
  }

  // ---------------------------------------------------------------- inside the call

  // A state of the called function: operand stack d, next instruction at pc.
  function In(p: int, q: int, regs: Regs, d: seq<int>, pc: int): Abs {
    Abs(regs, Above(Bottom([p, q]), 31, d), pc, [], true)
  }

  lemma At7(env: Env, p: int, q: int, regs: Regs, x: int)
    ensures AbsStep(env, Image(p, q), In(p, q, regs, [x], 7)) == Some(In(p, q, regs, [x, regs[R1]], 9))
  {
    hide AbsStep, AbsExec;
    DoPushR(env, Image(p, q), In(p, q, regs, [x], 7), R1);
    assert [x] + [regs[R1]] == [x, regs[R1]];
  }

  lemma At9(env: Env, p: int, q: int, regs: Regs, x: int, y: int)
    requires x >= 0 && y > 0
    ensures AbsStep(env, Image(p, q), In(p, q, regs, [x, y], 9)) == Some(In(p, q, regs, [x % y], 10))
  {
    hide AbsStep, AbsExec;
    DoBin(env, Image(p, q), In(p, q, regs, [x, y], 9), Mod, [], x, y, x % y);
    assert [] + [x, y] == [x, y] && [] + [x % y] == [x % y];
  }

  lemma At10(env: Env, p: int, q: int, regs: Regs, d: seq<int>)
    ensures AbsStep(env, Image(p, q), In(p, q, regs, d, 10)) == Some(In(p, q, regs[R0 := regs[R1]], d, 13))
  {
    hide AbsStep, AbsExec;
    DoMov(env, Image(p, q), In(p, q, regs, d, 10), R0, R1);
  }

  lemma At13(env: Env, p: int, q: int, regs: Regs, r: int)
    ensures AbsStep(env, Image(p, q), In(p, q, regs, [r], 13)) == Some(In(p, q, regs[R1 := r], [], 15))
  {
    hide AbsStep, AbsExec;
    assert [] + [r] == [r];
    DoPop(env, Image(p, q), In(p, q, regs, [r], 13), R1, [], r);
  }

  lemma At15(env: Env, p: int, q: int, regs: Regs)
    ensures AbsStep(env, Image(p, q), In(p, q, regs, [], 15)) == Some(In(p, q, regs, [regs[R0]], 17))
  {
    hide AbsStep, AbsExec;
    DoPushR(env, Image(p, q), In(p, q, regs, [], 15), R0);
    assert [] + [regs[R0]] == [regs[R0]];
  }

  lemma At17(env: Env, p: int, q: int, regs: Regs, y: int)
    ensures AbsStep(env, Image(p, q), In(p, q, regs, [y], 17)) == Some(In(p, q, regs, [y, regs[R1]], 19))
  {
    hide AbsStep, AbsExec;
    DoPushR(env, Image(p, q), In(p, q, regs, [y], 17), R1);
    assert [y] + [regs[R1]] == [y, regs[R1]];
  }

  lemma At19(env: Env, p: int, q: int, regs: Regs, y: int, r: int)
    ensures AbsStep(env, Image(p, q), In(p, q, regs, [y, r], 19))
            == Some(In(p, q, regs, [y], if r != 0 then 6 else 21))
  {
    hide AbsStep, AbsExec;
    assert [y] + [r] == [y, r];
    DoJump(env, Image(p, q), In(p, q, regs, [y, r], 19), RJNz, -14, [y], r);
  }

  lemma At6(env: Env, p: int, q: int, regs: Regs, d: seq<int>)
    ensures AbsStep(env, Image(p, q), In(p, q, regs, d, 6)) == Some(In(p, q, regs, d, 7))
  {
    hide AbsStep, AbsExec;
    DoNop(env, Image(p, q), In(p, q, regs, d, 6));
  }

  // One turn of the loop, from `pushr r1` to where `rjnz` goes.
  lemma Round(env: Env, p: int, q: int, regs: Regs, x: int)
    requires x >= 0 && regs[R1] > 0
    ensures var y := regs[R1];
      Leads(env, Image(p, q), In(p, q, regs, [x], 7), 7,
            In(p, q, regs[R0 := y][R1 := x % y], [y], if x % y != 0 then 6 else 21))
  {
    hide AbsStep, Image;
    var code, y := Image(p, q), regs[R1];
    var r1 := regs[R0 := y];
    var r2 := r1[R1 := x % y];
    var s := In(p, q, regs, [x], 7);
    assert Leads(env, code, s, 0, s);
    At7(env, p, q, regs, x);
    Chain(env, code, s, 0, s, In(p, q, regs, [x, y], 9));
    At9(env, p, q, regs, x, y);
    Chain(env, code, s, 1, In(p, q, regs, [x, y], 9), In(p, q, regs, [x % y], 10));
    At10(env, p, q, regs, [x % y]);
    Chain(env, code, s, 2, In(p, q, regs, [x % y], 10), In(p, q, r1, [x % y], 13));
    At13(env, p, q, r1, x % y);
    Chain(env, code, s, 3, In(p, q, r1, [x % y], 13), In(p, q, r2, [], 15));
    At15(env, p, q, r2);
    Chain(env, code, s, 4, In(p, q, r2, [], 15), In(p, q, r2, [y], 17));
    At17(env, p, q, r2, y);
    Chain(env, code, s, 5, In(p, q, r2, [y], 17), In(p, q, r2, [y, x % y], 19));
    At19(env, p, q, r2, y, x % y);
    Chain(env, code, s, 6, In(p, q, r2, [y, x % y], 19), In(p, q, r2, [y], if x % y != 0 then 6 else 21));
  }

  // The loop ends, and leaves the greatest common divisor: r1 decreases on every turn.
  lemma {:induction false} Loop(env: Env, p: int, q: int, regs: Regs, x: int) returns (n: nat, g: int, end: Regs)
    requires x >= 0 && regs[R1] > 0
    ensures IsGcd(g, x, regs[R1])
    ensures Leads(env, Image(p, q), In(p, q, regs, [x], 7), n, In(p, q, end, [g], 21))
    decreases regs[R1]
  {
    hide AbsStep, Image;
    var code, y := Image(p, q), regs[R1];
    var s, next := In(p, q, regs, [x], 7), regs[R0 := y][R1 := x % y];
    Round(env, p, q, regs, x);
    if x % y == 0 {
      n, g, end := 7, y, next;
      GcdBase(y);
    } else {
      At6(env, p, q, next, [y]);
      Chain(env, code, s, 7, In(p, q, next, [y], 6), In(p, q, next, [y], 7));
      n, g, end := Loop(env, p, q, next, y);
      Compose(env, code, s, 8, In(p, q, next, [y], 7), n, In(p, q, end, [g], 21));
      n := n + 8;
    }
    GcdStep(g, x, y);
  }

  // ---------------------------------------------------------------- around the call

  function Out(regs: Regs, d: seq<int>, pc: int, out: seq<int>, on: bool): Abs {
    Abs(regs, Bottom(d), pc, out, on)
  }

  const ZEROS: Regs := seq(NUM_REGS, i => 0)

  // From `main:` to the loop: the two numbers are pushed, and loaded from below the saved words.
  lemma Enter(env: Env, p: int, q: int)
    ensures Leads(env, Image(p, q), Out(ZEROS, [], 24, [], true), 8, In(p, q, ZEROS[R1 := q], [p], 7))
  {
    var code, s := Image(p, q), Out(ZEROS, [], 24, [], true);
    Prologue(env, p, q);
    Arguments(env, p, q);
    hide AbsStep, Image;
    assert Leads(env, code, s, 0, s);
    Chain(env, code, s, 0, s, Out(ZEROS, [], 25, [], true));
    Chain(env, code, s, 1, Out(ZEROS, [], 25, [], true), Out(ZEROS, [p], 27, [], true));
    Chain(env, code, s, 2, Out(ZEROS, [p], 27, [], true), Out(ZEROS, [p, q], 29, [], true));
    Chain(env, code, s, 3, Out(ZEROS, [p, q], 29, [], true), In(p, q, ZEROS, [], 0));
    Chain(env, code, s, 4, In(p, q, ZEROS, [], 0), In(p, q, ZEROS, [], 1));
    Chain(env, code, s, 5, In(p, q, ZEROS, [], 1), In(p, q, ZEROS, [p], 3));
    Chain(env, code, s, 6, In(p, q, ZEROS, [p], 3), In(p, q, ZEROS, [p, q], 5));
    Chain(env, code, s, 7, In(p, q, ZEROS, [p, q], 5), In(p, q, ZEROS[R1 := q], [p], 7));
  }

  lemma Prologue(env: Env, p: int, q: int)
    ensures AbsStep(env, Image(p, q), Out(ZEROS, [], 24, [], true)) == Some(Out(ZEROS, [], 25, [], true))
    ensures AbsStep(env, Image(p, q), Out(ZEROS, [], 25, [], true)) == Some(Out(ZEROS, [p], 27, [], true))
    ensures AbsStep(env, Image(p, q), Out(ZEROS, [p], 27, [], true)) == Some(Out(ZEROS, [p, q], 29, [], true))
    ensures AbsStep(env, Image(p, q), Out(ZEROS, [p, q], 29, [], true)) == Some(In(p, q, ZEROS, [], 0))
  {
    hide AbsStep, AbsExec;
    assert [] + [p] == [p] && [p] + [q] == [p, q];
    DoNop(env, Image(p, q), Out(ZEROS, [], 24, [], true));
    DoPush(env, Image(p, q), Out(ZEROS, [], 25, [], true), p);
    DoPush(env, Image(p, q), Out(ZEROS, [p], 27, [], true), q);
    DoCall(env, Image(p, q), Out(ZEROS, [p, q], 29, [], true), 0);
  }

  // The arguments lie under the two saved words.
  lemma InFlat(p: int, q: int, regs: Regs, d: seq<int>, pc: int)
    ensures Flat(In(p, q, regs, d, pc).frames) == [p, q, 0, 30] + d
    ensures Base(In(p, q, regs, d, pc).frames) == 4
  {
  }

  lemma Arguments(env: Env, p: int, q: int)
    ensures AbsStep(env, Image(p, q), In(p, q, ZEROS, [], 0)) == Some(In(p, q, ZEROS, [], 1))
    ensures AbsStep(env, Image(p, q), In(p, q, ZEROS, [], 1)) == Some(In(p, q, ZEROS, [p], 3))
    ensures AbsStep(env, Image(p, q), In(p, q, ZEROS, [p], 3)) == Some(In(p, q, ZEROS, [p, q], 5))
    ensures AbsStep(env, Image(p, q), In(p, q, ZEROS, [p, q], 5)) == Some(In(p, q, ZEROS[R1 := q], [p], 7))
  {
    hide AbsStep, AbsExec, Flat, Base;
    assert [] + [p] == [p] && [p] + [q] == [p, q];
    InFlat(p, q, ZEROS, [], 1);
    InFlat(p, q, ZEROS, [p], 3);
    DoNop(env, Image(p, q), In(p, q, ZEROS, [], 0));
    DoLoad(env, Image(p, q), In(p, q, ZEROS, [], 1), -4);
    DoLoad(env, Image(p, q), In(p, q, ZEROS, [p], 3), -3);
    DoPop(env, Image(p, q), In(p, q, ZEROS, [p, q], 5), R1, [p], q);
  }

  lemma Leave(env: Env, p: int, q: int, regs: Regs, g: int)
    ensures Leads(env, Image(p, q), In(p, q, regs, [g], 21), 4, Out(regs[AX := g], [p, q], 34, [g], false))
  {
    var code, s, end := Image(p, q), In(p, q, regs, [g], 21), regs[AX := g];
    Epilogue(env, p, q, regs, g);
    hide AbsStep, Image;
    assert Leads(env, code, s, 0, s);
    Chain(env, code, s, 0, s, In(p, q, end, [], 23));
    Chain(env, code, s, 1, In(p, q, end, [], 23), Out(end, [p, q], 31, [], true));
    Chain(env, code, s, 2, Out(end, [p, q], 31, [], true), Out(end, [p, q], 33, [g], true));
    Chain(env, code, s, 3, Out(end, [p, q], 33, [g], true), Out(end, [p, q], 34, [g], false));
  }

  lemma Epilogue(env: Env, p: int, q: int, regs: Regs, g: int)
    ensures var end := regs[AX := g];
      && AbsStep(env, Image(p, q), In(p, q, regs, [g], 21)) == Some(In(p, q, end, [], 23))
      && AbsStep(env, Image(p, q), In(p, q, end, [], 23)) == Some(Out(end, [p, q], 31, [], true))
      && AbsStep(env, Image(p, q), Out(end, [p, q], 31, [], true)) == Some(Out(end, [p, q], 33, [g], true))
      && AbsStep(env, Image(p, q), Out(end, [p, q], 33, [g], true)) == Some(Out(end, [p, q], 34, [g], false))
  {
    hide AbsStep, AbsExec;
    var end := regs[AX := g];
    assert [] + [g] == [g];
    DoPop(env, Image(p, q), In(p, q, regs, [g], 21), AX, [], g);
    DoRet(env, Image(p, q), In(p, q, end, [], 23));
    DoPReg(env, Image(p, q), Out(end, [p, q], 31, [], true), AX);
    DoHalt(env, Image(p, q), Out(end, [p, q], 33, [g], true));
  }

  /** Total correctness, on the machine itself: started at `main`, the image stops after finitely
      many turns.  Unless memory was refused it has printed the greatest common divisor of the two
      numbers and left it in ax, with exit code 0; FP and SP are what they were before the call. */
  lemma GcdProgram(env: Env, p: int, q: int) returns (n: nat, g: int)
    requires p >= 0 && q >= 1
    ensures IsGcd(g, p, q)
    ensures var d := Turns(env, Image(p, q), Start(24), n);
      && d.Some? && d.value.regs[RUN] == 0
      && (|| Stopped(env, d.value)
          || (&& d.value.regs[AX] == g && d.value.out == [g] && d.value.regs[EXT] == 0
              && d.value.regs[FP] == 0 && d.value.regs[SP] == 2))
  {
    hide AbsStep, Image, Turns;
    var code, s := Image(p, q), Out(ZEROS, [], 24, [], true);
    Enter(env, p, q);
    var m, end;
    m, g, end := Loop(env, p, q, ZEROS[R1 := q], p);
    Compose(env, code, s, 8, In(p, q, ZEROS[R1 := q], [p], 7), m, In(p, q, end, [g], 21));
    Leave(env, p, q, end, g);
    Compose(env, code, s, 8 + m, In(p, q, end, [g], 21), 4, Out(end[AX := g], [p, q], 34, [g], false));
    n := 8 + m + 4;
    assert Related(Start(24), s);
    RunFollows(env, code, Start(24), s, n);
  }
}
