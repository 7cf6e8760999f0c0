/** How a run ends, for programs that leave the register `run` alone; all other registers they may write
    as they please, `ext` among them.
  */
module ExitCodes {
  import opened Bytecode
  import opened Runs
  import opened Vm

  function OpAt(code: seq<int>, c: Config): Option<Op> {
    var w :- Peek(code, c);
    Decode(w)
  }

  // The instruction about to run names register r as its destination.
  predicate Names(code: seq<int>, c: Config, r: int) {
    var op := OpAt(code, c);
    && op.Some? && (op.value == LoadR || op.value == Mov || op.value == IncR || op.value == DecR || op.value == Pop)
    && 0 <= c.regs[IP] + 2 < |code| && code[c.regs[IP] + 2] == r
  }

  predicate Polite(code: seq<int>, c: Config) {
    !Names(code, c, RUN)
  }

  // The instruction about to run pops or peeks below the bottom, or needs memory and is refused.
  predicate Faults(env: Env, op: Op, c: Config) {
    var h := c.regs[SP];
    match op
    case Bin(_) => h == 0 || h == 1
    case Not => h == 0
    case Inc => h == 0
    case Dec => h == 0
    case Pop => h == 0
    case Jz => h == 0
    case RJz => h == 0
    case JNz => h == 0
    case RJNz => h == 0
    case PTop => h == 0
    case Ret => c.regs[FP] == 0 || c.regs[FP] == 1
    case Load => h == |c.mem| && !env.grants(c.tick)
    case Push => h == |c.mem| && !env.grants(c.tick)
    case PushR => h == |c.mem| && !env.grants(c.tick)
    case Call => (h == |c.mem| || h + 1 == |c.mem|) && !env.grants(c.tick)
    case _ => false
  }

  predicate Running(c: Config) {
    c.regs[RUN] == 1 && |c.mem| > 0
  }

  /** On, with ext as it was unless it was named; or switched off by HALT, with the int that ext holds; or
      switched off by a fault, with 1, unless it was a `pop ext` that found nothing to pop. */
  predicate Outcome(env: Env, op: Op, c: Config, d: Config, extNamed: bool) {
    if op == Halt then d.regs[RUN] == 0 && d.regs[EXT] == ToInt(c.regs[EXT])
    else if Faults(env, op, c) then d.regs[RUN] == 0 && (!extNamed ==> d.regs[EXT] == 1)
    else Running(d) && (!extNamed ==> d.regs[EXT] == c.regs[EXT])
  }

  // The same, when the opcode has been fetched.
  predicate NamesNext(code: seq<int>, op: Op, c: Config, r: int) {
    (op == LoadR || op == Mov || op == IncR || op == DecR || op == Pop) && Peek(code, c) == Some(r)
  }

  predicate PoliteExec(code: seq<int>, op: Op, c: Config) {
    !NamesNext(code, op, c, RUN)
  }

  lemma OutcomeOfPushes(env: Env, code: seq<int>, op: Op, c: Config)
    requires Running(c) && Exec(env, code, op, c).Some?
    requires op == Load || op == Push || op == PushR
    ensures Outcome(env, op, c, Exec(env, code, op, c).value, NamesNext(code, op, c, EXT))
  {
  }

  lemma OutcomeOfCall(env: Env, code: seq<int>, c: Config)
    requires Running(c) && Exec(env, code, Call, c).Some?
    ensures Outcome(env, Call, c, Exec(env, code, Call, c).value, NamesNext(code, Call, c, EXT))
  {
  }

  lemma OutcomeOfRet(env: Env, code: seq<int>, c: Config)
    requires Running(c) && Exec(env, code, Ret, c).Some?
    ensures Outcome(env, Ret, c, Exec(env, code, Ret, c).value, NamesNext(code, Ret, c, EXT))
  {
  }

  lemma OutcomeOfOperators(env: Env, code: seq<int>, op: Op, c: Config)
    requires Running(c) && Exec(env, code, op, c).Some?
    requires op.Bin? || op == Not || op == Inc || op == Dec || op == PTop
    ensures Outcome(env, op, c, Exec(env, code, op, c).value, NamesNext(code, op, c, EXT))
  {
  }

  lemma OutcomeOfBranches(env: Env, code: seq<int>, op: Op, c: Config)
    requires Running(c) && Exec(env, code, op, c).Some?
    requires op == Jz || op == RJz || op == JNz || op == RJNz || op == Jmp || op == RJmp
    ensures Outcome(env, op, c, Exec(env, code, op, c).value, NamesNext(code, op, c, EXT))
  {
  }

  lemma OutcomeOfRegisters(env: Env, code: seq<int>, op: Op, c: Config)
    requires Running(c) && Exec(env, code, op, c).Some? && PoliteExec(code, op, c)
    requires op == LoadR || op == Mov || op == IncR || op == DecR || op == PReg || op == Store
    ensures Outcome(env, op, c, Exec(env, code, op, c).value, NamesNext(code, op, c, EXT))
  {
  }

  lemma OutcomeOfPop(env: Env, code: seq<int>, c: Config)
    requires Running(c) && Exec(env, code, Pop, c).Some? && PoliteExec(code, Pop, c)
    ensures Outcome(env, Pop, c, Exec(env, code, Pop, c).value, NamesNext(code, Pop, c, EXT))
  {
  }

  lemma OutcomeOfHalt(env: Env, code: seq<int>, op: Op, c: Config)
    requires Running(c) && (op == Halt || op == Nop)
    ensures Exec(env, code, op, c).Some?
    ensures Outcome(env, op, c, Exec(env, code, op, c).value, NamesNext(code, op, c, EXT))
  {
  }

  lemma ExecOutcome(env: Env, code: seq<int>, op: Op, c: Config)
    requires Running(c) && Exec(env, code, op, c).Some? && PoliteExec(code, op, c)
    ensures Outcome(env, op, c, Exec(env, code, op, c).value, NamesNext(code, op, c, EXT))
  {
    hide Exec, Outcome, PoliteExec;
    match op
    case Halt => OutcomeOfHalt(env, code, op, c);
    case Nop => OutcomeOfHalt(env, code, op, c);
    case LoadR => OutcomeOfRegisters(env, code, op, c);
    case Mov => OutcomeOfRegisters(env, code, op, c);
    case IncR => OutcomeOfRegisters(env, code, op, c);
    case DecR => OutcomeOfRegisters(env, code, op, c);
    case PReg => OutcomeOfRegisters(env, code, op, c);
    case Store => OutcomeOfRegisters(env, code, op, c);
    case Pop => OutcomeOfPop(env, code, c);
    case Load => OutcomeOfPushes(env, code, op, c);
    case Push => OutcomeOfPushes(env, code, op, c);
    case PushR => OutcomeOfPushes(env, code, op, c);
    case Call => OutcomeOfCall(env, code, c);
    case Ret => OutcomeOfRet(env, code, c);
    case Bin(_) => OutcomeOfOperators(env, code, op, c);
    case Not => OutcomeOfOperators(env, code, op, c);
    case Inc => OutcomeOfOperators(env, code, op, c);
    case Dec => OutcomeOfOperators(env, code, op, c);
    case PTop => OutcomeOfOperators(env, code, op, c);
    case Jz => OutcomeOfBranches(env, code, op, c);
    case RJz => OutcomeOfBranches(env, code, op, c);
    case JNz => OutcomeOfBranches(env, code, op, c);
    case RJNz => OutcomeOfBranches(env, code, op, c);
    case Jmp => OutcomeOfBranches(env, code, op, c);
    case RJmp => OutcomeOfBranches(env, code, op, c);
  }

  // One turn, in terms of the state before the fetch, which only moves IP.
  lemma StepOutcome(env: Env, code: seq<int>, c: Config)
    requires Running(c) && Step(env, code, c).Some? && Polite(code, c)
    ensures OpAt(code, c).Some?
    ensures Outcome(env, OpAt(code, c).value, c, Step(env, code, c).value, Names(code, c, EXT))
  {
    hide Decode, Exec;
    var op := OpAt(code, c).value;
    var c1 := Next(code, c).value.0;
    OperandPresent(env, code, op, c1);
    ExecOutcome(env, code, op, c1);
  }

  lemma OperandPresent(env: Env, code: seq<int>, op: Op, c: Config)
    requires Exec(env, code, op, c).Some?
    ensures op == LoadR || op == Mov || op == IncR || op == DecR || op == Pop ==> 0 <= c.regs[IP] + 1 < |code|
  {
  }

  // ---------------------------------------------------------------- runs

  ghost predicate PoliteRun(env: Env, code: seq<int>, c: Config, n: nat)
    decreases n
  {
    n > 0 && On(c) ==>
      Polite(code, c) && (Step(env, code, c).Some? ==> PoliteRun(env, code, Step(env, code, c).value, n - 1))
  }

  /** A run that has ended ended in its last turn, for one of two reasons: HALT, and the code is what ext
      held, as an int; or the first and only fault, and the code is 1, unless it was a `pop ext`.  Nothing
      is fetched after it. */
  lemma {:induction false} RunOutcome(env: Env, code: seq<int>, c: Config, n: nat) returns (k: nat, b: Config)
    requires Running(c) && PoliteRun(env, code, c, n)
    requires Turns(env, code, c, n).Some? && !On(Turns(env, code, c, n).value)
    ensures var d := Turns(env, code, c, n).value;
      && k < n && Turns(env, code, c, k) == Some(b) && Running(b) && Step(env, code, b) == Some(d)
      && OpAt(code, b).Some?
      && (OpAt(code, b).value == Halt || Faults(env, OpAt(code, b).value, b))
      && (OpAt(code, b).value == Halt ==> d.regs[EXT] == ToInt(b.regs[EXT]))
      && (OpAt(code, b).value != Halt && !Names(code, b, EXT) ==> d.regs[EXT] == 1)
    ensures forall j :: 0 <= j < n ==> Turns(env, code, c, j).Some? && (On(Turns(env, code, c, j).value) <==> j <= k)
    decreases n
  {
    hide Step, OpAt, Polite, Names, Faults, ToInt;
    StepOutcome(env, code, c);
    var d := Step(env, code, c).value;
    if On(d) {
      k, b := RunOutcome(env, code, d, n - 1);
      k := k + 1;
      forall j | 0 <= j < n
        ensures Turns(env, code, c, j).Some? && (On(Turns(env, code, c, j).value) <==> j <= k)
      {
        if j > 0 { assert Turns(env, code, c, j) == Turns(env, code, d, j - 1); }
      }
    } else {
      k, b := 0, c;
      assert Turns(env, code, c, n) == Turns(env, code, d, n - 1) == Some(d);
      forall j | 0 <= j < n
        ensures Turns(env, code, c, j).Some? && (On(Turns(env, code, c, j).value) <==> j <= k)
      {
        if j > 0 { assert Turns(env, code, c, j) == Turns(env, code, d, j - 1); }
      }
    }
  }

  // ---------------------------------------------------------------- programs that leave ext alone, too

  ghost predicate LeavesExt(env: Env, code: seq<int>, c: Config, n: nat)
    decreases n
  {
    n > 0 && On(c) ==>
      !Names(code, c, EXT) && (Step(env, code, c).Some? ==> LeavesExt(env, code, Step(env, code, c).value, n - 1))
  }

  lemma {:induction false} ExtStays(env: Env, code: seq<int>, c: Config, n: nat, k: nat)
    requires Running(c) && PoliteRun(env, code, c, n) && LeavesExt(env, code, c, n) && k < n
    requires Turns(env, code, c, k).Some? && On(Turns(env, code, c, k).value)
    ensures var b := Turns(env, code, c, k).value; b.regs[EXT] == c.regs[EXT] && !Names(code, b, EXT)
    decreases n
  {
    hide Step, OpAt, Polite, Names, Faults, ToInt;
    if k > 0 {
      StepOutcome(env, code, c);
      var d := Step(env, code, c).value;
      assert Turns(env, code, c, k) == Turns(env, code, d, k - 1);
      if On(d) { ExtStays(env, code, d, n - 1, k - 1); }
    }
  }

  /** Then the code of a run that has ended is 0 after HALT and 1 after a fault. */
  lemma CleanOutcome(env: Env, code: seq<int>, c: Config, n: nat) returns (k: nat, b: Config)
    requires Running(c) && c.regs[EXT] == 0 && PoliteRun(env, code, c, n) && LeavesExt(env, code, c, n)
    requires Turns(env, code, c, n).Some? && !On(Turns(env, code, c, n).value)
    ensures var d := Turns(env, code, c, n).value;
      && k < n && Turns(env, code, c, k) == Some(b) && Running(b) && Step(env, code, b) == Some(d)
      && OpAt(code, b).Some?
      && (OpAt(code, b).value == Halt || Faults(env, OpAt(code, b).value, b))
      && d.regs[EXT] == (if OpAt(code, b).value == Halt then 0 else 1)
    ensures forall j :: 0 <= j < n ==> Turns(env, code, c, j).Some? && (On(Turns(env, code, c, j).value) <==> j <= k)
  {
    assert ToInt(0) == 0;
    hide Step, OpAt, Turns, Running, Names, Faults, PoliteRun, LeavesExt, ToInt;
    k, b := RunOutcome(env, code, c, n);
    ExtStays(env, code, c, n, k);
  }
}
