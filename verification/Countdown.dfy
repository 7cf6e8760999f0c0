/** examples/carp/countdown.carp, for any start in place of its 10. */
module Countdown {
  import opened Bytecode
  import opened Runs
  import opened Vm
  import opened CallStack
  import opened Simulation
  import opened Steps

  // The loaded image: 13 words are assembled and all but the last are loaded.
  function Image(n: int): seq<int> {
    [ 1,              //  0  main:
      2, 0, n,        //  1  loadr r0, n
      20, 0,          //  4  pushr r0
      35,             //  6  ptop
      17, 0,          //  7  decr r0
      28, 3,          //  9  jnz 3
      0 ]             // 11  halt
  }

  // n, n - 1, ..., m
  function Down(n: nat, m: nat): seq<int>
    requires m <= n + 1
  {
    seq(n + 1 - m, i requires 0 <= i => n - i)
  }

  function R0Is(x: int): Regs {
    seq(NUM_REGS, i => 0)[R0 := x]
  }

  function At(x: int, d: seq<int>, pc: int, out: seq<int>): Abs {
    Abs(R0Is(x), Bottom(d), pc, out, true)
  }

  lemma Prints(env: Env, n: int, x: int, out: seq<int>)
    requires InWord(x - 1)
    ensures AbsStep(env, Image(n), At(x, [], 4, out)) == Some(At(x, [x], 6, out))
    ensures AbsStep(env, Image(n), At(x, [x], 6, out)) == Some(At(x, [x], 7, out + [x]))
    ensures AbsStep(env, Image(n), At(x, [x], 7, out + [x])) == Some(At(x - 1, [x], 9, out + [x]))
    ensures AbsStep(env, Image(n), At(x - 1, [x], 9, out + [x]))
            == Some(At(x - 1, [], if x == 0 then 11 else 4, out + [x]))
  {
    hide AbsStep, AbsExec;
    assert [] + [x] == [x] && R0Is(x)[R0 := x - 1] == R0Is(x - 1);
    DoPushR(env, Image(n), At(x, [], 4, out), R0);
    DoPTop(env, Image(n), At(x, [x], 6, out), [], x);
    DoDecR(env, Image(n), At(x, [x], 7, out + [x]), R0);
    DoJump(env, Image(n), At(x - 1, [x], 9, out + [x]), JNz, 3, [], x);
  }

  // One turn: the value is printed before it is decremented, and tested as it was pushed.
  lemma Round(env: Env, n: int, x: int, out: seq<int>)
    requires InWord(x - 1)
    ensures Leads(env, Image(n), At(x, [], 4, out), 4, At(x - 1, [], if x == 0 then 11 else 4, out + [x]))
  {
    hide AbsStep, AbsExec, Image, R0Is;
    var code, s, out' := Image(n), At(x, [], 4, out), out + [x];
    Prints(env, n, x, out);
    assert Leads(env, code, s, 0, s);
    Chain(env, code, s, 0, s, At(x, [x], 6, out));
    Chain(env, code, s, 1, At(x, [x], 6, out), At(x, [x], 7, out'));
    Chain(env, code, s, 2, At(x, [x], 7, out'), At(x - 1, [x], 9, out'));
    Chain(env, code, s, 3, At(x - 1, [x], 9, out'), At(x - 1, [], if x == 0 then 11 else 4, out'));
  }

  lemma Enter(env: Env, n: int)
    ensures Leads(env, Image(n), At(0, [], 0, []), 2, At(n, [], 4, []))
  {
    hide AbsStep, AbsExec;
    var code, s := Image(n), At(0, [], 0, []);
    assert R0Is(0)[R0 := n] == R0Is(n);
    assert Leads(env, code, s, 0, s);
    DoNop(env, code, s);
    Chain(env, code, s, 0, s, At(0, [], 1, []));
    DoLoadR(env, code, At(0, [], 1, []), R0, n);
    Chain(env, code, s, 1, At(0, [], 1, []), At(n, [], 4, []));
  }

  // The loop from x on, with what was printed before.
  lemma {:induction false} Rounds(env: Env, n: nat, x: nat)
    requires x <= n && InWord(n)
    ensures Leads(env, Image(n), At(x, [], 4, Down(n, x + 1)), 4 * (x + 1), At(-1, [], 11, Down(n, 0)))
    decreases x
  {
    hide Image, At, Leads;
    Round(env, n, x, Down(n, x + 1));
    assert Down(n, x + 1) + [x] == Down(n, x);
    if x > 0 {
      Rounds(env, n, x - 1);
      var a, b := At(x, [], 4, Down(n, x + 1)), At(x - 1, [], 4, Down(n, x));
      Compose(env, Image(n), a, 4, b, 4 * x, At(-1, [], 11, Down(n, 0)));
    }
  }

  lemma Begins()
    ensures Related(Start(0), At(0, [], 0, []))
  {
    assert R0Is(0) == seq(NUM_REGS, i => 0);
  }

  /** The program halts; unless memory was refused it has printed n down to 0, one number more than
      it was asked to count, and left -1 in r0. */
  lemma CountdownProgram(env: Env, n: nat) returns (m: nat)
    requires InWord(n)
    ensures var d := Turns(env, Image(n), Start(0), m);
      && d.Some? && d.value.regs[RUN] == 0
      && (|| Stopped(env, d.value)
          || (&& d.value.out == Down(n, 0) && d.value.regs[EXT] == 0
              && d.value.regs[SP] == 0 && d.value.regs[R0] == -1))
  {
    hide AbsStep, AbsExec, Turns, AbsTurns, Leads;
    var code, s, end := Image(n), At(0, [], 0, []), At(-1, [], 11, Down(n, 0));
    Enter(env, n);
    Rounds(env, n, n);
    assert Down(n, n + 1) == [];
    Compose(env, code, s, 2, At(n, [], 4, []), 4 * (n + 1), end);
    DoHalt(env, code, end);
    m := 2 + 4 * (n + 1) + 1;
    Chain(env, code, s, m - 1, end, Skip(end, 1).(on := false));
    Begins();
    FollowLeads(env, code, Start(0), s, m, Skip(end, 1).(on := false));
  }
}
