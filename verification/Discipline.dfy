/** When a run of the machine is disciplined, said of the machine's own registers and buffer; and what
    that gives, without mention of the call-stack machine.
  */
module Discipline {
  import opened Bytecode
  import opened Runs
  import opened Vm
  import opened CallStack
  import opened Simulation
  import opened Calls

  // ---------------------------------------------------------------- the chain in the buffer

  // Following the saved frame pointers from fp leads to 0.
  predicate Chained(mem: seq<int>, fp: int)
    decreases if fp < 0 then 0 else fp
  {
    fp == 0 || (2 <= fp <= |mem| && 0 <= mem[fp - 2] <= fp - 2 && Chained(mem, mem[fp - 2]))
  }

  // How many calls are in progress.
  function CallsIn(mem: seq<int>, fp: int): nat
    requires Chained(mem, fp)
    decreases if fp < 0 then 0 else fp
  {
    if fp == 0 then 0 else CallsIn(mem, mem[fp - 2]) + 1
  }

  // Index i holds a saved frame pointer or return position of one of them.
  predicate IsSaved(mem: seq<int>, fp: int, i: int)
    requires Chained(mem, fp)
    decreases if fp < 0 then 0 else fp
  {
    fp != 0 && (i == fp - 2 || i == fp - 1 || IsSaved(mem, mem[fp - 2], i))
  }

  predicate Framed(c: Config) {
    && 0 <= c.regs[FP] <= c.regs[SP] <= |c.mem| && 0 < |c.mem| && Chained(c.mem, c.regs[FP])
    && (c.regs[RUN] == 0 || c.regs[RUN] == 1) && c.regs[EXT] == 0
  }

  lemma StartIsFramed(main: int)
    ensures Framed(Start(main)) && CallsIn(Start(main).mem, Start(main).regs[FP]) == 0
  {
  }

  // ---------------------------------------------------------------- the call stack in the buffer

  function FramesIn(mem: seq<int>, fp: int, sp: int): Frames
    requires Chained(mem, fp) && fp <= sp <= |mem|
    decreases if fp < 0 then 0 else fp
  {
    if fp == 0 then Bottom(mem[..sp])
    else Above(FramesIn(mem, mem[fp - 2], fp - 2), mem[fp - 1] + 1, mem[fp..sp])
  }

  lemma {:induction false} FramesInFlat(mem: seq<int>, fp: int, sp: int)
    requires Chained(mem, fp) && fp <= sp <= |mem|
    ensures Flat(FramesIn(mem, fp, sp)) == mem[..sp] && Base(FramesIn(mem, fp, sp)) == fp
    decreases if fp < 0 then 0 else fp
  {
    if fp != 0 {
      FramesInFlat(mem, mem[fp - 2], fp - 2);
      assert mem[..sp] == mem[..fp - 2] + [mem[fp - 2], mem[fp - 1]] + mem[fp..sp];
    }
  }

  function AbsOf(c: Config): Abs
    requires Framed(c)
  {
    Abs(c.regs, FramesIn(c.mem, c.regs[FP], c.regs[SP]), c.regs[IP] + 1, c.out, c.regs[RUN] == 1)
  }

  // Every framed state is one the call-stack machine can be in.
  lemma FramedIsRelated(c: Config)
    requires Framed(c)
    ensures Related(c, AbsOf(c))
  {
    FramesInFlat(c.mem, c.regs[FP], c.regs[SP]);
  }

  lemma {:induction false} FlatIsChained(fs: Frames, mem: seq<int>)
    requires Flat(fs) <= mem
    ensures Chained(mem, Base(fs)) && CallsIn(mem, Base(fs)) == Depth(fs)
    decreases fs
  {
    if fs.Above? {
      var n := |Flat(fs.caller)|;
      assert Flat(fs)[n] == Base(fs.caller) && mem[n] == Flat(fs)[n];
      assert Flat(fs)[..n] == Flat(fs.caller);
      FlatTop(fs.caller, fs.caller.data);
      FlatIsChained(fs.caller, mem);
    }
  }

  lemma RelatedIsFramed(c: Config, a: Abs)
    requires Related(c, a)
    ensures Framed(c) && CallsIn(c.mem, c.regs[FP]) == Depth(a.frames)
  {
    FlatIsChained(a.frames, c.mem);
    FlatTop(a.frames, a.frames.data);
  }

  lemma {:induction false} SavedLow(mem: seq<int>, fp: int, i: int)
    requires Chained(mem, fp) && IsSaved(mem, fp, i)
    ensures 0 <= i < fp
    decreases if fp < 0 then 0 else fp
  {
    if i != fp - 2 && i != fp - 1 {
      SavedLow(mem, mem[fp - 2], i);
    }
  }

  // A store is possible below the height where no word is saved.
  lemma {:induction false} PutIff(fs: Frames, mem: seq<int>, i: int, v: int)
    requires Flat(fs) <= mem && Chained(mem, Base(fs))
    ensures Put(fs, i, v).Some? <==> 0 <= i < |Flat(fs)| && !IsSaved(mem, Base(fs), i)
    decreases fs
  {
    if Base(fs) <= i {
      if IsSaved(mem, Base(fs), i) { SavedLow(mem, Base(fs), i); }
    } else if fs.Above? {
      var n := |Flat(fs.caller)|;
      assert Flat(fs)[n] == Base(fs.caller) && mem[n] == Flat(fs)[n];
      assert Flat(fs)[..n] == Flat(fs.caller);
      PutIff(fs.caller, mem, i, v);
    }
  }

  // ---------------------------------------------------------------- one instruction

  function Pops(op: Op): nat {
    match op
    case Bin(_) => 2
    case Not => 1
    case Inc => 1
    case Dec => 1
    case Pop => 1
    case Jz => 1
    case RJz => 1
    case JNz => 1
    case RJNz => 1
    case PTop => 1
    case _ => 0
  }

  // The word after the opcode that has just been fetched.
  function Arg(code: seq<int>, c: Config): int {
    if 0 <= c.regs[IP] + 1 < |code| then code[c.regs[IP] + 1] else 0
  }

  /** The instruction pops no more than the current call has pushed; its destination is none of ip, sp,
      fp, run and ext; it loads and stores below the height, and stores into no saved word; and it
      returns only from a call. */
  predicate MayRun(code: seq<int>, op: Op, c: Config)
    requires Framed(c)
  {
    var i := c.regs[FP] + Arg(code, c);
    && c.regs[SP] - c.regs[FP] >= Pops(op)
    && (op == LoadR || op == Mov || op == IncR || op == DecR || op == Pop ==> !Reserved(Arg(code, c)))
    && (op == Load || op == Store ==> 0 <= i < c.regs[SP])
    && (op == Store ==> !IsSaved(c.mem, c.regs[FP], i))
    && (op == Ret ==> c.regs[FP] != 0)
  }

  // Just after the fetch of an opcode.
  predicate Pair(c: Config, a: Abs) {
    Fetched(c, a) && Framed(c)
  }

  lemma MaySet(env: Env, code: seq<int>, op: Op, c: Config, a: Abs)
    requires Pair(c, a) && (op == Halt || op == Nop || op == LoadR || op == Mov)
    ensures AbsExec(env, code, op, a).Some? <==> Exec(env, code, op, c).Some? && MayRun(code, op, c)
  {
    hide Chained, IsSaved;
    FlatTop(a.frames, a.frames.data);
  }

  lemma MayBump(env: Env, code: seq<int>, op: Op, c: Config, a: Abs)
    requires Pair(c, a) && (op == IncR || op == DecR)
    ensures AbsExec(env, code, op, a).Some? <==> Exec(env, code, op, c).Some? && MayRun(code, op, c)
  {
    hide Chained, IsSaved;
    FlatTop(a.frames, a.frames.data);
  }

  lemma MayLoad(env: Env, code: seq<int>, c: Config, a: Abs)
    requires Pair(c, a)
    ensures AbsExec(env, code, Load, a).Some? <==> Exec(env, code, Load, c).Some? && MayRun(code, Load, c)
  {
    hide Chained, IsSaved;
    FlatTop(a.frames, a.frames.data);
  }

  lemma MayPush(env: Env, code: seq<int>, op: Op, c: Config, a: Abs)
    requires Pair(c, a) && (op == Push || op == PushR)
    ensures AbsExec(env, code, op, a).Some? <==> Exec(env, code, op, c).Some? && MayRun(code, op, c)
  {
    hide Chained, IsSaved;
    FlatTop(a.frames, a.frames.data);
  }

  lemma MayPrint(env: Env, code: seq<int>, c: Config, a: Abs)
    requires Pair(c, a)
    ensures AbsExec(env, code, PReg, a).Some? <==> Exec(env, code, PReg, c).Some? && MayRun(code, PReg, c)
  {
    hide Chained, IsSaved;
    FlatTop(a.frames, a.frames.data);
  }

  lemma MayPrintTop(env: Env, code: seq<int>, c: Config, a: Abs)
    requires Pair(c, a)
    ensures AbsExec(env, code, PTop, a).Some? <==> Exec(env, code, PTop, c).Some? && MayRun(code, PTop, c)
  {
    hide PopOff, SPop, Body, Chained, IsSaved;
    MayTake(env, c, a);
  }

  lemma AbsStores(env: Env, code: seq<int>, a: Abs)
    ensures AbsExec(env, code, Store, a).Some? <==>
            && Operand(code, a, 1).Some? && Operand(code, a, 2).Some?
            && Put(a.frames, Base(a.frames) + Operand(code, a, 1).value, Operand(code, a, 2).value).Some?
  {
    hide Put, Base;
  }

  lemma Stores(env: Env, code: seq<int>, c: Config)
    ensures Exec(env, code, Store, c).Some? <==>
            && 0 <= c.regs[IP] + 1 < |code| && 0 <= c.regs[IP] + 2 < |code|
            && 0 <= c.regs[FP] + Arg(code, c) < |c.mem|
  {
  }

  lemma MayStoreAt(code: seq<int>, c: Config, i: int)
    requires Framed(c) && i == c.regs[FP] + Arg(code, c)
    ensures MayRun(code, Store, c) <==> 0 <= i < c.regs[SP] && !IsSaved(c.mem, c.regs[FP], i)
  {
    hide Arg, Chained, IsSaved;
  }

  lemma PutAllowed(c: Config, a: Abs, i: int, v: int)
    requires Pair(c, a)
    ensures Framed(c) && Base(a.frames) == c.regs[FP]
    ensures Put(a.frames, i, v).Some? <==> 0 <= i < c.regs[SP] && !IsSaved(c.mem, c.regs[FP], i)
  {
    Laid(c, a);
    hide Pair, Framed, Flat, Base, Put, IsSaved, Chained;
    PutIff(a.frames, c.mem, i, v);
  }

  lemma StoreAllowed(code: seq<int>, c: Config, a: Abs, v: int)
    requires Pair(c, a)
    ensures Put(a.frames, Base(a.frames) + Arg(code, c), v).Some? <==> MayRun(code, Store, c)
    ensures MayRun(code, Store, c) ==> 0 <= c.regs[FP] + Arg(code, c) < |c.mem|
  {
    hide Pair, Flat, Base, Put, IsSaved, Chained, Arg, MayRun;
    var i := Base(a.frames) + Arg(code, c);
    PutAllowed(c, a, i, v);
    MayStoreAt(code, c, i);
  }

  lemma MayStore(env: Env, code: seq<int>, c: Config, a: Abs)
    requires Pair(c, a)
    ensures AbsExec(env, code, Store, a).Some? <==> Exec(env, code, Store, c).Some? && MayRun(code, Store, c)
  {
    AbsStores(env, code, a);
    Stores(env, code, c);
    hide Exec, AbsExec, Body, Flat, Base, Put, IsSaved, Chained, MayRun;
    if Operand(code, a, 1).Some? && Operand(code, a, 2).Some? {
      StoreAllowed(code, c, a, Operand(code, a, 2).value);
    }
  }

  lemma Laid(c: Config, a: Abs)
    requires Pair(c, a)
    ensures c.regs[FP] == Base(a.frames) && c.regs[SP] == |Flat(a.frames)| && Flat(a.frames) <= c.mem
    ensures Framed(c) && c.regs[FP] <= c.regs[SP] <= |c.mem| && Chained(c.mem, c.regs[FP])
  {
  }

  // What is popped, by an instruction that pops something: the same on both machines, or nothing at all.
  lemma MayTake(env: Env, c: Config, a: Abs)
    requires Pair(c, a)
    ensures PopOff(a).Some? <==> c.regs[SP] - c.regs[FP] >= 1
    ensures PopOff(a).Some? ==>
              && SPop(env, c).Some? && SPop(env, c).value.1 == PopOff(a).value.1
              && Pair(SPop(env, c).value.0, PopOff(a).value.0)
              && SPop(env, c).value.0.regs[SP] == c.regs[SP] - 1 && SPop(env, c).value.0.regs[FP] == c.regs[FP]
              && SPop(env, c).value.0.regs[IP] == c.regs[IP] && PopOff(a).value.0.pc == a.pc
  {
    FlatTop(a.frames, a.frames.data);
    if |a.frames.data| > 0 { PopFollows(env, c, a); }
  }

  lemma MayOperate(env: Env, code: seq<int>, f: Fun, c: Config, a: Abs)
    requires Pair(c, a)
    ensures AbsExec(env, code, Bin(f), a).Some? <==> Exec(env, code, Bin(f), c).Some? && MayRun(code, Bin(f), c)
  {
    hide Apply, SPop, PopOff, SPush, Body, Chained;
    MayTake(env, c, a);
    if PopOff(a).Some? {
      var c1, a1 := SPop(env, c).value.0, PopOff(a).value.0;
      MayTake(env, c1, a1);
      if PopOff(a1).Some? { MayGive(env, SPop(env, c1).value.0, PopOff(a1).value.0); }
    }
  }

  lemma MayGive(env: Env, c: Config, a: Abs)
    requires Pair(c, a)
    ensures forall v :: SPush(env, c, v).Some?
  {
    hide Chained;
  }

  lemma MayOperateOne(env: Env, code: seq<int>, op: Op, c: Config, a: Abs)
    requires Pair(c, a) && (op == Not || op == Inc || op == Dec)
    ensures AbsExec(env, code, op, a).Some? <==> Exec(env, code, op, c).Some? && MayRun(code, op, c)
  {
    hide SPop, PopOff, SPush, Body, Chained;
    MayTake(env, c, a);
    if PopOff(a).Some? { MayGive(env, SPop(env, c).value.0, PopOff(a).value.0); }
  }

  lemma MayPop(env: Env, code: seq<int>, c: Config, a: Abs)
    requires Pair(c, a)
    ensures AbsExec(env, code, Pop, a).Some? <==> Exec(env, code, Pop, c).Some? && MayRun(code, Pop, c)
  {
    hide SPop, PopOff, Body, Chained, IsSaved;
    MayTake(env, c, a);
  }

  lemma MayJumpIf(code: seq<int>, c: Config, a: Abs, taken: bool, relative: bool)
    requires Fetched(c, a)
    ensures AbsJump(code, a, taken, relative).Some? <==> JumpIf(code, c, taken, relative).Some?
  {
  }

  lemma MayJump(env: Env, code: seq<int>, op: Op, c: Config, a: Abs)
    requires Pair(c, a) && (op == Jmp || op == RJmp)
    ensures AbsExec(env, code, op, a).Some? <==> Exec(env, code, op, c).Some? && MayRun(code, op, c)
  {
    hide JumpIf, AbsJump, Chained;
    FlatTop(a.frames, a.frames.data);
    MayJumpIf(code, c, a, true, op == RJmp);
  }

  lemma MayBranch(env: Env, code: seq<int>, op: Op, c: Config, a: Abs)
    requires Pair(c, a) && (op == Jz || op == RJz || op == JNz || op == RJNz)
    ensures AbsExec(env, code, op, a).Some? <==> Exec(env, code, op, c).Some? && MayRun(code, op, c)
  {
    hide JumpIf, AbsJump, SPop, PopOff, Body, Chained;
    MayTake(env, c, a);
    if PopOff(a).Some? {
      var (a1, x) := PopOff(a).value;
      MayJumpIf(code, SPop(env, c).value.0, a1, (x == 0) == (op == Jz || op == RJz), op == RJz || op == RJNz);
    }
  }

  lemma MayCall(env: Env, code: seq<int>, c: Config, a: Abs)
    requires Pair(c, a)
    ensures AbsExec(env, code, Call, a).Some? <==> Exec(env, code, Call, c).Some? && MayRun(code, Call, c)
  {
    hide Chained;
    FlatTop(a.frames, a.frames.data);
  }

  lemma MayReturn(env: Env, code: seq<int>, c: Config, a: Abs)
    requires Pair(c, a)
    ensures AbsExec(env, code, Ret, a).Some? <==> Exec(env, code, Ret, c).Some? && MayRun(code, Ret, c)
  {
    hide Chained;
    FlatTop(a.frames, a.frames.data);
    if a.frames.Above? { FollowsRet(env, code, c, a); }
  }

  lemma ExecIsDisciplined(env: Env, code: seq<int>, op: Op, c: Config, a: Abs)
    requires Pair(c, a)
    ensures AbsExec(env, code, op, a).Some? <==> Exec(env, code, op, c).Some? && MayRun(code, op, c)
  {
    hide Exec, AbsExec, MayRun, Pair;
    match op
    case Store => MayStore(env, code, c, a);
    case Pop => MayPop(env, code, c, a);
    case Halt => MaySet(env, code, op, c, a);
    case Nop => MaySet(env, code, op, c, a);
    case LoadR => MaySet(env, code, op, c, a);
    case Mov => MaySet(env, code, op, c, a);
    case IncR => MayBump(env, code, op, c, a);
    case DecR => MayBump(env, code, op, c, a);
    case Load => MayLoad(env, code, c, a);
    case Push => MayPush(env, code, op, c, a);
    case PushR => MayPush(env, code, op, c, a);
    case PReg => MayPrint(env, code, c, a);
    case PTop => MayPrintTop(env, code, c, a);
    case Bin(f) => MayOperate(env, code, f, c, a);
    case Not => MayOperateOne(env, code, op, c, a);
    case Inc => MayOperateOne(env, code, op, c, a);
    case Dec => MayOperateOne(env, code, op, c, a);
    case Call => MayCall(env, code, c, a);
    case Ret => MayReturn(env, code, c, a);
    case Jz => MayBranch(env, code, op, c, a);
    case RJz => MayBranch(env, code, op, c, a);
    case JNz => MayBranch(env, code, op, c, a);
    case RJNz => MayBranch(env, code, op, c, a);
    case Jmp => MayJump(env, code, op, c, a);
    case RJmp => MayJump(env, code, op, c, a);
  }

  // ---------------------------------------------------------------- one turn

  predicate Disciplined(code: seq<int>, c: Config)
    requires Framed(c)
  {
    Next(code, c).Some? && Decode(Next(code, c).value.1).Some? &&
    MayRun(code, Decode(Next(code, c).value.1).value, Next(code, c).value.0)
  }

  /** A turn of the machine is a step of the call-stack machine exactly when it is defined and
      disciplined. */
  lemma StepIsDisciplined(env: Env, code: seq<int>, c: Config, a: Abs)
    requires Related(c, a) && a.on && Framed(c)
    ensures AbsStep(env, code, a).Some? <==> Step(env, code, c).Some? && Disciplined(code, c)
  {
    hide Exec, AbsExec, Decode, MayRun;
    if Next(code, c).Some? && Decode(Next(code, c).value.1).Some? {
      var (d, w) := Next(code, c).value;
      ExecIsDisciplined(env, code, Decode(w).value, d, a);
    }
  }

  // ---------------------------------------------------------------- runs

  // As long as the machine is on, n turns from here are defined and disciplined.
  predicate DisciplinedRun(env: Env, code: seq<int>, c: Config, n: nat)
    decreases n
  {
    n == 0 || !On(c)
    || (Framed(c) && Step(env, code, c).Some? && Disciplined(code, c)
        && DisciplinedRun(env, code, Step(env, code, c).value, n - 1))
  }

  /** The call-stack machine has a run of n steps exactly when the machine has a disciplined one, unless
      the machine was refused memory. */
  lemma {:induction false} RunIsDisciplined(env: Env, code: seq<int>, c: Config, a: Abs, n: nat)
    requires Related(c, a)
    ensures AbsTurns(env, code, a, n).Some? ==> DisciplinedRun(env, code, c, n)
    ensures DisciplinedRun(env, code, c, n) ==>
              var d := Turns(env, code, c, n);
              d.Some? && (AbsTurns(env, code, a, n).Some? || Stopped(env, d.value))
    decreases n
  {
    hide Step, AbsStep, Disciplined, Framed, Body;
    OnTogether(c, a);
    if n > 0 && a.on {
      RelatedIsFramed(c, a);
      StepIsDisciplined(env, code, c, a);
      if AbsStep(env, code, a).Some? {
        StepFollows(env, code, c, a);
        var d, b := Step(env, code, c).value, AbsStep(env, code, a).value;
        if Related(d, b) {
          RunIsDisciplined(env, code, d, b, n - 1);
        } else {
          OffStays(env, code, d, n - 1);
        }
      }
    }
  }

  lemma OnTogether(c: Config, a: Abs)
    requires Related(c, a)
    ensures On(c) == a.on
  {
  }

  lemma OffStays(env: Env, code: seq<int>, c: Config, n: nat)
    requires !On(c)
    ensures Turns(env, code, c, n) == Some(c)
  {
  }

  /** What every disciplined run keeps, from the start of the machine or any framed state on: FP <= SP
      <= the capacity of the stack, and the chain of saved frame pointers. */
  lemma FramesStay(env: Env, code: seq<int>, c: Config, n: nat)
    requires Framed(c) && DisciplinedRun(env, code, c, n)
    ensures var d := Turns(env, code, c, n); d.Some? && (Stopped(env, d.value) || Framed(d.value))
  {
    hide Turns, AbsTurns, DisciplinedRun, Framed, Related, Stopped;
    FramedIsRelated(c);
    RunIsDisciplined(env, code, c, AbsOf(c), n);
    var d := Turns(env, code, c, n).value;
    if !Stopped(env, d) {
      RunFollows(env, code, c, AbsOf(c), n);
      RelatedIsFramed(d, AbsTurns(env, code, AbsOf(c), n).value);
    }
  }

  // ---------------------------------------------------------------- balanced calls

  // n + 1 turns from inside the call lead back to depth d: the last one is the matching RET.
  predicate ComesBack(env: Env, code: seq<int>, c: Config, d: nat, n: nat)
    decreases n
  {
    && On(c) && Framed(c) && d < CallsIn(c.mem, c.regs[FP]) && Step(env, code, c).Some?
    && var b := Step(env, code, c).value;
       if n == 0 then Framed(b) && CallsIn(b.mem, b.regs[FP]) == d else ComesBack(env, code, b, d, n - 1)
  }

  // The stack indices that STOREs name in the next n turns.
  function Named(env: Env, code: seq<int>, c: Config, n: nat): set<int>
    decreases n
  {
    if n == 0 || !On(c) || Step(env, code, c).None? then {}
    else NamedNow(code, c) + Named(env, code, Step(env, code, c).value, n - 1)
  }

  function NamedNow(code: seq<int>, c: Config): set<int> {
    if Peek(code, c) == Some(4) && 0 <= c.regs[IP] + 2 < |code| then {c.regs[FP] + code[c.regs[IP] + 2]} else {}
  }

  lemma {:induction false} ComesBackReturns(env: Env, code: seq<int>, c: Config, a: Abs, d: nat, n: nat)
    requires Related(c, a) && DisciplinedRun(env, code, c, n + 1) && ComesBack(env, code, c, d, n)
    ensures ReturnsIn(env, code, a, d, n)
    ensures Named(env, code, c, n + 1) == AllStored(env, code, a, n + 1)
    decreases n
  {
    hide Step, AbsStep, Disciplined, Framed, Body, Chained, CallsIn;
    OnTogether(c, a);
    RelatedIsFramed(c, a);
    StepIsDisciplined(env, code, c, a);
    StepFollows(env, code, c, a);
    var c', a' := Step(env, code, c).value, AbsStep(env, code, a).value;
    NamedIsStored(code, c, a);
    FramedIsNotStopped(env, c');
    RelatedIsFramed(c', a');
    if n > 0 {
      ComesBackReturns(env, code, c', a', d, n - 1);
    } else {
      assert Named(env, code, c', 0) == AllStored(env, code, a', 0);
    }
  }

  lemma NamedIsStored(code: seq<int>, c: Config, a: Abs)
    requires Related(c, a)
    ensures NamedNow(code, c) == Stored(code, a)
  {
  }

  lemma FramedIsNotStopped(env: Env, c: Config)
    requires Framed(c)
    ensures !Stopped(env, c)
  {
  }

  /** Balanced calls, on the machine alone: the instruction is a CALL, and n + 1 disciplined turns after
      it the number of calls in progress is for the first time what it was.  Then IP is just after the
      call's operand, FP and SP are what they were, and of the stack words below only those that a STORE
      named have changed; or the CALL itself was refused memory. */
  lemma BalancedCall(env: Env, code: seq<int>, c: Config, n: nat)
    requires Framed(c) && On(c) && Peek(code, c) == Some(32) && DisciplinedRun(env, code, c, n + 2)
    requires On(Step(env, code, c).value) ==>
               ComesBack(env, code, Step(env, code, c).value, CallsIn(c.mem, c.regs[FP]), n)
    ensures var d := Turns(env, code, c, n + 2);
      d.Some? && (Stopped(env, d.value) || ResumesIn(c, d.value, Named(env, code, c, n + 2)))
  {
    hide Step, AbsStep, Disciplined, Framed, Body, Chained, CallsIn, ComesBack, Turns, AbsTurns, ReturnsIn, ResumesIn;
    var a := AbsOf(c);
    FramedIsRelated(c);
    OnTogether(c, a);
    RelatedIsFramed(c, a);
    StepIsDisciplined(env, code, c, a);
    StepFollows(env, code, c, a);
    var c', a' := Step(env, code, c).value, AbsStep(env, code, a).value;
    OneTurn(env, code, c, n + 1);
    if !Related(c', a') {
      OffStays(env, code, c', n + 1);
    } else {
      CallKeepsOn(env, code, a);
      OnTogether(c', a');
      ComesBackReturns(env, code, c', a', CallsIn(c.mem, c.regs[FP]), n);
      CallReturns(env, code, c, a, n);
      assert NamedNow(code, c) == {};
      assert Named(env, code, c, n + 2) == Named(env, code, c', n + 1);
    }
  }

  // The shortest balanced call, of a lone RET at the start of the machine.
  const SHORTEST := [32, 3, 0, 33]

  predicate InShortest(c: Config) {
    c.regs[SP] == c.regs[FP] == 2 == c.regs[IP] && c.regs[RUN] == 1 && c.regs[EXT] == 0
    && |c.mem| > 2 && c.mem[0] == 0 && c.mem[1] == 1
  }

  lemma ShortestEnters(env: Env)
    requires env.grants(0)
    ensures Step(env, SHORTEST, Start(0)).Some? && InShortest(Step(env, SHORTEST, Start(0)).value)
    ensures Peek(SHORTEST, Start(0)) == Some(32)
  {
    var c := Next(SHORTEST, Start(0)).value.0;
    assert Exec(env, SHORTEST, Call, c).Some?;
  }

  lemma ShortestLeaves(env: Env, c: Config)
    requires InShortest(c)
    ensures Step(env, SHORTEST, c).Some?
    ensures var d := Step(env, SHORTEST, c).value; d.regs[FP] == 0 && d.regs[SP] == 0 && Framed(d)
  {
    var d := Next(SHORTEST, c).value.0;
    assert Exec(env, SHORTEST, Ret, d).Some?;
  }

  lemma ShortestIsDisciplined(c: Config)
    requires c == Start(0) || InShortest(c)
    ensures Framed(c) && On(c) && Disciplined(SHORTEST, c)
    ensures CallsIn(c.mem, c.regs[FP]) == if c == Start(0) then 0 else 1
  {
    if InShortest(c) { assert Chained(c.mem, 0) && CallsIn(c.mem, 0) == 0; }
  }

  lemma ShortestCall(env: Env)
    requires env.grants(0)
    ensures var c := Start(0);
      && Framed(c) && On(c) && Peek(SHORTEST, c) == Some(32) && DisciplinedRun(env, SHORTEST, c, 2)
      && ComesBack(env, SHORTEST, Step(env, SHORTEST, c).value, CallsIn(c.mem, c.regs[FP]), 0)
  {
    hide Step, Disciplined, Framed, InShortest, Start, Chained, Peek, On;
    var c := Start(0);
    ShortestEnters(env);
    var d := Step(env, SHORTEST, c).value;
    ShortestIsDisciplined(c);
    ShortestIsDisciplined(d);
    NotTheStart(d);
    ShortestLeaves(env, d);
    var e := Step(env, SHORTEST, d).value;
    assert DisciplinedRun(env, SHORTEST, e, 0);
    assert DisciplinedRun(env, SHORTEST, d, 1);
  }

  lemma NotTheStart(c: Config)
    requires InShortest(c)
    ensures c != Start(0)
  {
  }

  lemma OneTurn(env: Env, code: seq<int>, c: Config, n: nat)
    requires On(c) && Step(env, code, c).Some?
    ensures Turns(env, code, c, n + 1) == Turns(env, code, Step(env, code, c).value, n)
  {
    hide Step;
  }

  lemma CallKeepsOn(env: Env, code: seq<int>, a: Abs)
    requires Operand(code, a, 0) == Some(32) && AbsStep(env, code, a).Some? && a.on
    ensures AbsStep(env, code, a).value.on
  {
    AbsStepExecutes(env, code, a, Call);
  }
}
