/** examples/carp/fibonacci.carp, for any counter in place of its 10: what it prints, and how far it
    can go before a sum no longer fits in a word.
  */
module Fibonacci {
  import opened Bytecode
  import opened Runs
  import opened Vm
  import opened CallStack
  import opened Simulation
  import opened Steps

  // The loaded image: 30 words are assembled and all but the last are loaded.
  function Image(n: int): seq<int> {
    [ 1,              //  0  main:
      2, 2, n,        //  1  loadr r2, n
      2, 0, 0,        //  4  loadr r0, 0
      2, 1, 1,        //  7  loadr r1, 1
      34, 0,          // 10  preg r0
      20, 0,          // 12  pushr r0
      20, 1,          // 14  pushr r1
      6,              // 16  add
      5, 0, 1,        // 17  mov r0, r1
      22, 1,          // 20  pop r1
      17, 2,          // 22  decr r2
      20, 2,          // 24  pushr r2
      28, 9,          // 26  jnz 9
      0 ]             // 28  halt
  }

  function Fib(n: nat): nat {
    if n < 2 then n else Fib(n - 2) + Fib(n - 1)
  }

  function Fibs(n: nat): seq<int> {
    seq(n, i requires 0 <= i < n => Fib(i))
  }

  lemma {:induction false} FibGrows(m: nat, n: nat)
    requires m <= n
    ensures Fib(m) <= Fib(n)
    decreases n
  {
    if m < n {
      FibGrows(m, n - 1);
      assert n >= 2 ==> Fib(n) == Fib(n - 2) + Fib(n - 1);
    }
  }

  // ---------------------------------------------------------------- the loop

  function Regs3(x: int, y: int, z: int): Regs {
    seq(NUM_REGS, i => 0)[R0 := x][R1 := y][R2 := z]
  }

  function At(x: int, y: int, z: int, d: seq<int>, pc: int, out: seq<int>): Abs {
    Abs(Regs3(x, y, z), Bottom(d), pc, out, true)
  }

  lemma FirstHalf(env: Env, n: int, x: int, y: int, z: int, out: seq<int>)
    requires InWord(x + y)
    ensures Leads(env, Image(n), At(x, y, z, [], 10, out), 4, At(x, y, z, [x + y], 17, out + [x]))
  {
    hide AbsStep, AbsExec;
    var code, s, out' := Image(n), At(x, y, z, [], 10, out), out + [x];
    ToTheSum(env, n, x, y, z, out);
    DoBin(env, code, At(x, y, z, [x, y], 16, out'), Add, [], x, y, x + y);
    assert [] + [x, y] == [x, y] && [] + [x + y] == [x + y];
    Chain(env, code, s, 3, At(x, y, z, [x, y], 16, out'), At(x, y, z, [x + y], 17, out'));
  }

  lemma ToTheSum(env: Env, n: int, x: int, y: int, z: int, out: seq<int>)
    ensures Leads(env, Image(n), At(x, y, z, [], 10, out), 3, At(x, y, z, [x, y], 16, out + [x]))
  {
    hide AbsStep, AbsExec, Image, At;
    var code, s, out' := Image(n), At(x, y, z, [], 10, out), out + [x];
    Shows(env, n, x, y, z, out);
    assert s.on && At(x, y, z, [], 12, out').on && At(x, y, z, [x], 14, out').on by { AtIsOn(x, y, z); }
    assert Leads(env, code, s, 0, s);
    Chain(env, code, s, 0, s, At(x, y, z, [], 12, out'));
    Chain(env, code, s, 1, At(x, y, z, [], 12, out'), At(x, y, z, [x], 14, out'));
    Chain(env, code, s, 2, At(x, y, z, [x], 14, out'), At(x, y, z, [x, y], 16, out'));
  }

  lemma AtIsOn(x: int, y: int, z: int)
    ensures forall d, pc, out :: At(x, y, z, d, pc, out).on
  {
  }

  lemma Shows(env: Env, n: int, x: int, y: int, z: int, out: seq<int>)
    ensures AbsStep(env, Image(n), At(x, y, z, [], 10, out)) == Some(At(x, y, z, [], 12, out + [x]))
    ensures AbsStep(env, Image(n), At(x, y, z, [], 12, out + [x])) == Some(At(x, y, z, [x], 14, out + [x]))
    ensures AbsStep(env, Image(n), At(x, y, z, [x], 14, out + [x])) == Some(At(x, y, z, [x, y], 16, out + [x]))
  {
    hide AbsStep, AbsExec;
    assert [] + [x] == [x] && [x] + [y] == [x, y];
    DoPReg(env, Image(n), At(x, y, z, [], 10, out), R0);
    DoPushR(env, Image(n), At(x, y, z, [], 12, out + [x]), R0);
    DoPushR(env, Image(n), At(x, y, z, [x], 14, out + [x]), R1);
  }

  lemma Updates(x: int, y: int, z: int, v: int)
    ensures Regs3(x, y, z)[R0 := v] == Regs3(v, y, z)
    ensures Regs3(x, y, z)[R1 := v] == Regs3(x, v, z)
    ensures Regs3(x, y, z)[R2 := v] == Regs3(x, y, v)
    ensures Regs3(x, y, z)[R0] == x && Regs3(x, y, z)[R1] == y && Regs3(x, y, z)[R2] == z
  {
  }

  lemma SecondHalf(env: Env, n: int, x: int, y: int, z: int, v: int, out: seq<int>)
    requires 0 < z && InWord(z)
    ensures Leads(env, Image(n), At(x, y, z, [v], 17, out), 5, At(y, v, z - 1, [], if z == 1 then 28 else 10, out))
  {
    hide AbsStep, AbsExec, Regs3;
    var code, s := Image(n), At(x, y, z, [v], 17, out);
    Shifts(env, n, x, y, z, v, out);
    Branches(env, n, y, v, z - 1, out);
    assert Leads(env, code, s, 0, s);
    Chain(env, code, s, 0, s, At(y, y, z, [v], 20, out));
    Chain(env, code, s, 1, At(y, y, z, [v], 20, out), At(y, v, z, [], 22, out));
    Chain(env, code, s, 2, At(y, v, z, [], 22, out), At(y, v, z - 1, [], 24, out));
    Chain(env, code, s, 3, At(y, v, z - 1, [], 24, out), At(y, v, z - 1, [z - 1], 26, out));
    Chain(env, code, s, 4, At(y, v, z - 1, [z - 1], 26, out), At(y, v, z - 1, [], if z == 1 then 28 else 10, out));
  }

  lemma Shifts(env: Env, n: int, x: int, y: int, z: int, v: int, out: seq<int>)
    requires 0 < z && InWord(z)
    ensures AbsStep(env, Image(n), At(x, y, z, [v], 17, out)) == Some(At(y, y, z, [v], 20, out))
    ensures AbsStep(env, Image(n), At(y, y, z, [v], 20, out)) == Some(At(y, v, z, [], 22, out))
    ensures AbsStep(env, Image(n), At(y, v, z, [], 22, out)) == Some(At(y, v, z - 1, [], 24, out))
  {
    hide AbsStep, AbsExec, Regs3;
    Updates(x, y, z, y);
    Updates(y, y, z, v);
    Updates(y, v, z, z - 1);
    DoMov(env, Image(n), At(x, y, z, [v], 17, out), R0, R1);
    assert [] + [v] == [v];
    DoPop(env, Image(n), At(y, y, z, [v], 20, out), R1, [], v);
    DoDecR(env, Image(n), At(y, v, z, [], 22, out), R2);
  }

  lemma Branches(env: Env, n: int, x: int, y: int, z: int, out: seq<int>)
    ensures AbsStep(env, Image(n), At(x, y, z, [], 24, out)) == Some(At(x, y, z, [z], 26, out))
    ensures AbsStep(env, Image(n), At(x, y, z, [z], 26, out)) == Some(At(x, y, z, [], if z == 0 then 28 else 10, out))
  {
    hide AbsStep, AbsExec;
    assert [] + [z] == [z];
    DoPushR(env, Image(n), At(x, y, z, [], 24, out), R2);
    DoJump(env, Image(n), At(x, y, z, [z], 26, out), JNz, 9, [], z);
  }

  lemma Enter(env: Env, n: int)
    ensures Leads(env, Image(n), At(0, 0, 0, [], 0, []), 4, At(0, 1, n, [], 10, []))
  {
    hide AbsStep, AbsExec, Image, Regs3;
    var code, s := Image(n), At(0, 0, 0, [], 0, []);
    Loads(env, n);
    assert Leads(env, code, s, 0, s);
    Chain(env, code, s, 0, s, At(0, 0, 0, [], 1, []));
    Chain(env, code, s, 1, At(0, 0, 0, [], 1, []), At(0, 0, n, [], 4, []));
    Chain(env, code, s, 2, At(0, 0, n, [], 4, []), At(0, 0, n, [], 7, []));
    Chain(env, code, s, 3, At(0, 0, n, [], 7, []), At(0, 1, n, [], 10, []));
  }

  lemma Loads(env: Env, n: int)
    ensures AbsStep(env, Image(n), At(0, 0, 0, [], 0, [])) == Some(At(0, 0, 0, [], 1, []))
    ensures AbsStep(env, Image(n), At(0, 0, 0, [], 1, [])) == Some(At(0, 0, n, [], 4, []))
    ensures AbsStep(env, Image(n), At(0, 0, n, [], 4, [])) == Some(At(0, 0, n, [], 7, []))
    ensures AbsStep(env, Image(n), At(0, 0, n, [], 7, [])) == Some(At(0, 1, n, [], 10, []))
  {
    hide AbsStep, AbsExec, Image, Regs3;
    Words(n);
    DoNop(env, Image(n), At(0, 0, 0, [], 0, []));
    Sets(env, Image(n), 0, 0, 0, 1, R2, n);
    Sets(env, Image(n), 0, 0, n, 4, R0, 0);
    Sets(env, Image(n), 0, 0, n, 7, R1, 1);
  }

  lemma Words(n: int)
    ensures var w := Image(n);
      |w| == 29 && w[..10] == [1, 2, 2, n, 2, 0, 0, 2, 1, 1]
  {
  }

  // A loadr into one of the three registers.
  lemma Sets(env: Env, code: seq<int>, x: int, y: int, z: int, pc: nat, r: nat, v: int)
    requires pc + 2 < |code| && code[pc] == 2 && code[pc + 1] == r < 3 && code[pc + 2] == v
    ensures AbsStep(env, code, At(x, y, z, [], pc, []))
            == Some(At(if r == R0 then v else x, if r == R1 then v else y, if r == R2 then v else z, [], pc + 3, []))
  {
    hide AbsStep, AbsExec, Regs3;
    Updates(x, y, z, v);
    DoLoadR(env, code, At(x, y, z, [], pc, []), r, v);
  }

  // The state after k turns of the loop.
  function After(n: nat, k: nat): Abs
    requires k <= n
  {
    At(Fib(k), Fib(k + 1), n - k, [], if k == n && n > 0 then 28 else 10, Fibs(k))
  }

  lemma {:induction false} Rounds(env: Env, n: nat, k: nat)
    requires 0 < n && k <= n && InWord(n) && InWord(Fib(k + 1))
    ensures Leads(env, Image(n), At(0, 0, 0, [], 0, []), 4 + 9 * k, After(n, k))
    decreases k
  {
    hide Image, At, Leads;
    var s := At(0, 0, 0, [], 0, []);
    if k == 0 {
      Enter(env, n);
      assert Fibs(0) == [];
    } else {
      FibGrows(k, k + 1);
      Rounds(env, n, k - 1);
      var x, y, z := Fib(k - 1), Fib(k), n - (k - 1);
      assert Fib(k + 1) == x + y;
      FirstHalf(env, n, x, y, z, Fibs(k - 1));
      assert Fibs(k - 1) + [x] == Fibs(k);
      SecondHalf(env, n, x, y, z, x + y, Fibs(k));
      Compose(env, Image(n), s, 4 + 9 * (k - 1), After(n, k - 1), 4, At(x, y, z, [x + y], 17, Fibs(k)));
      Compose(env, Image(n), s, 8 + 9 * (k - 1), At(x, y, z, [x + y], 17, Fibs(k)), 5, After(n, k));
    }
  }

  lemma Begins(n: int)
    ensures Related(Start(0), At(0, 0, 0, [], 0, []))
  {
  }

  /** With a counter n >= 1 and Fib(n + 1) a word, the program halts; unless memory was refused it
      has printed Fib(0) to Fib(n - 1) and left Fib(n), Fib(n + 1) and 0 in r0, r1 and r2. */
  lemma FibonacciProgram(env: Env, n: nat) returns (m: nat)
    requires n >= 1 && InWord(n) && InWord(Fib(n + 1))
    ensures var d := Turns(env, Image(n), Start(0), m);
      && d.Some? && d.value.regs[RUN] == 0
      && (|| Stopped(env, d.value)
          || (&& d.value.out == Fibs(n) && d.value.regs[EXT] == 0 && d.value.regs[SP] == 0
              && d.value.regs[R0] == Fib(n) && d.value.regs[R1] == Fib(n + 1) && d.value.regs[R2] == 0))
  {
    hide AbsStep, AbsExec, Turns, Leads;
    var code, s, end := Image(n), At(0, 0, 0, [], 0, []), After(n, n);
    Rounds(env, n, n);
    DoHalt(env, code, end);
    Chain(env, code, s, 4 + 9 * n, end, Skip(end, 1).(on := false));
    m := 5 + 9 * n;
    Begins(n);
    FollowLeads(env, code, Start(0), s, m, Skip(end, 1).(on := false));
  }

  // ---------------------------------------------------------------- where it stops making sense

  // An addition whose result is not a word has no defined outcome.
  lemma AddOverflows(env: Env, code: seq<int>, c: Config, a: Abs, x: int, y: int)
    requires Related(c, a) && Operand(code, a, 0) == Some(6) && a.frames == Bottom([x, y]) && !InWord(x + y)
    ensures Step(env, code, c) == None
  {
    var c1 := Next(code, c).value.0;
    assert c1.mem[1] == Flat(a.frames)[1] == y && c1.mem[0] == Flat(a.frames)[0] == x;
  }

  lemma TurnsUndefined(env: Env, code: seq<int>, c: Config, m: nat, d: Config)
    requires Turns(env, code, c, m) == Some(d) && On(d) && Step(env, code, d) == None
    ensures Turns(env, code, c, m + 1) == None
  {
    hide Step;
    RunAdd((x: Config) => Step(env, code, x), On, c, m, 1);
  }

  // The turn in which the first sum that is not a word is formed.
  lemma {:induction false} FirstTooBig(n: nat) returns (k: nat)
    requires !InWord(Fib(n + 1))
    ensures k < n && InWord(Fib(k + 1)) && !InWord(Fib(k + 2))
  {
    assert Fib(1) == 1;
    k := n - 1;
    while !InWord(Fib(k + 1))
      invariant 0 <= k < n && !InWord(Fib(k + 2))
      decreases k
    {
      k := k - 1;
    }
  }

  /** With Fib(n + 1) not a word the program has no defined outcome, unless memory was refused
      before the addition that overflows. */
  lemma FibonacciOverflow(env: Env, n: nat) returns (m: nat)
    requires n >= 1 && InWord(n) && !InWord(Fib(n + 1))
    ensures var d := Turns(env, Image(n), Start(0), m); d == None || Stopped(env, d.value)
  {
    hide AbsStep, AbsExec, Turns, Leads;
    var k := FirstTooBig(n);
    var code, s := Image(n), At(0, 0, 0, [], 0, []);
    var x, y, z := Fib(k), Fib(k + 1), n - k;
    var b := At(x, y, z, [x, y], 16, Fibs(k) + [x]);
    Rounds(env, n, k);
    ToTheSum(env, n, x, y, z, Fibs(k));
    Compose(env, code, s, 4 + 9 * k, After(n, k), 3, b);
    m := 7 + 9 * k;
    Begins(n);
    FollowLeads(env, code, Start(0), s, m, b);
    var d := Turns(env, code, Start(0), m).value;
    if Related(d, b) {
      assert Fib(k + 2) == x + y;
      AddOverflows(env, code, d, b, x, y);
      TurnsUndefined(env, code, Start(0), m, d);
      m := m + 1;
    }
  }
}
