/** Every disciplined run of the machine follows the call-stack machine, step for step. */
module Simulation {
  import opened Bytecode
  import opened Runs
  import opened Vm
  import opened CallStack

  /** The machine's registers and buffer are those of the abstract state: SP is the height of all
      frames together, FP the base of the top one, and the buffer starts with the frames' words. */
  predicate Body(c: Config, a: Abs) {
    && (forall r :: 0 <= r < NUM_REGS && !Reserved(r) ==> c.regs[r] == a.regs[r])
    && c.regs[SP] == |Flat(a.frames)|
    && c.regs[FP] == Base(a.frames)
    && c.regs[RUN] == (if a.on then 1 else 0)
    && c.regs[EXT] == 0
    && c.out == a.out
    && Flat(a.frames) <= c.mem
    && 0 < |c.mem|
  }

  predicate Related(c: Config, a: Abs) {
    Body(c, a) && c.regs[IP] == a.pc - 1
  }

  // The machine was refused memory and has switched itself off with code 1.
  ghost predicate Stopped(env: Env, c: Config) {
    c.regs[RUN] == 0 && c.regs[EXT] == 1 && exists k :: 0 <= k < c.tick && !env.grants(k)
  }

  ghost predicate Follows(env: Env, d: Option<Config>, b: Abs) {
    d.Some? && (Related(d.value, b) || Stopped(env, d.value))
  }

  // ---------------------------------------------------------------- layout

  lemma FlatTop(fs: Frames, d: seq<int>)
    ensures Base(fs.(data := d)) == Base(fs)
    ensures Flat(fs.(data := d)) == Flat(fs)[..Base(fs)] + d
    ensures Flat(fs) == Flat(fs)[..Base(fs)] + fs.data
  {
  }

  lemma {:induction false} PutFlat(fs: Frames, i: int, v: int)
    requires Put(fs, i, v).Some?
    ensures Flat(Put(fs, i, v).value) == Flat(fs)[i := v] && Base(Put(fs, i, v).value) == Base(fs)
    decreases fs
  {
    if Base(fs) <= i < |Flat(fs)| {
      FlatTop(fs, fs.data[i - Base(fs) := v]);
      assert Flat(fs)[i := v] == Flat(fs)[..Base(fs)] + fs.data[i - Base(fs) := v];
    } else {
      PutFlat(fs.caller, i, v);
    }
  }

  // ---------------------------------------------------------------- pieces of instructions

  lemma PushFollows(env: Env, c: Config, a: Abs, v: int)
    requires Body(c, a) && a.on
    ensures var d := SPush(env, c, v);
      && d.Some? && d.value.regs[IP] == c.regs[IP] && d.value.regs[FP] == c.regs[FP]
      && (Body(d.value, PushOn(a, v)) || Stopped(env, d.value))
  {
    var fs, h := a.frames, c.regs[SP];
    FlatTop(fs, fs.data + [v]);
    assert Flat(fs.(data := fs.data + [v])) == Flat(fs) + [v];
    if h == |c.mem| {
      assert !env.grants(c.tick) ==> Stopped(env, Err(c));
    }
  }

  lemma BodySkips(c: Config, a: Abs, n: nat)
    ensures Body(c, Skip(a, n)) == Body(c, a)
  {
  }

  lemma PushStopped(env: Env, c: Config, v: int)
    requires Stopped(env, c) && 0 <= c.regs[SP] <= |c.mem|
    ensures var d := SPush(env, c, v);
      d.Some? && Stopped(env, d.value) && d.value.regs[SP] <= |d.value.mem| && 0 <= d.value.regs[SP]
  {
  }

  lemma PopFollows(env: Env, c: Config, a: Abs)
    requires Body(c, a) && PopOff(a).Some?
    ensures var d := SPop(env, c);
      && d.Some? && d.value.1 == PopOff(a).value.1 && d.value.0.regs[IP] == c.regs[IP]
      && Body(d.value.0, PopOff(a).value.0)
  {
    var fs := a.frames;
    var n := |fs.data|;
    FlatTop(fs, fs.data[..n - 1]);
    assert Flat(fs)[..|Flat(fs)| - 1] == Flat(fs.(data := fs.data[..n - 1]));
    assert c.mem[c.regs[SP] - 1] == Flat(fs)[|Flat(fs)| - 1] == fs.data[n - 1];
  }

  // ---------------------------------------------------------------- instructions

  // After the opcode at a.pc has been fetched.
  predicate Fetched(c: Config, a: Abs) {
    Body(c, a) && c.regs[IP] == a.pc && a.on
  }

  lemma FollowsSimple(env: Env, code: seq<int>, op: Op, c: Config, a: Abs)
    requires Fetched(c, a) && AbsExec(env, code, op, a).Some?
    requires op == Halt || op == Nop || op == PReg
    ensures Follows(env, Exec(env, code, op, c), AbsExec(env, code, op, a).value)
  {
  }

  lemma FollowsPTop(env: Env, code: seq<int>, c: Config, a: Abs)
    requires Fetched(c, a) && AbsExec(env, code, PTop, a).Some?
    ensures Follows(env, Exec(env, code, PTop, c), AbsExec(env, code, PTop, a).value)
  {
    PopFollows(env, c, a);
  }

  lemma FollowsSet(env: Env, code: seq<int>, op: Op, c: Config, a: Abs)
    requires Fetched(c, a) && AbsExec(env, code, op, a).Some?
    requires op == LoadR || op == Mov
    ensures Follows(env, Exec(env, code, op, c), AbsExec(env, code, op, a).value)
  {
  }

  lemma FollowsBump(env: Env, code: seq<int>, op: Op, c: Config, a: Abs)
    requires Fetched(c, a) && AbsExec(env, code, op, a).Some?
    requires op == IncR || op == DecR
    ensures Follows(env, Exec(env, code, op, c), AbsExec(env, code, op, a).value)
  {
  }

  lemma FollowsLoad(env: Env, code: seq<int>, c: Config, a: Abs)
    requires Fetched(c, a) && AbsExec(env, code, Load, a).Some?
    ensures Follows(env, Exec(env, code, Load, c), AbsExec(env, code, Load, a).value)
  {
    var c1 := Next(code, c).value.0;
    var i := Base(a.frames) + Operand(code, a, 1).value;
    assert c.mem[i] == Flat(a.frames)[i];
    PushFollows(env, c1, a, c.mem[i]);
  }

  lemma FollowsStore(env: Env, code: seq<int>, c: Config, a: Abs)
    requires Fetched(c, a) && AbsExec(env, code, Store, a).Some?
    ensures Follows(env, Exec(env, code, Store, c), AbsExec(env, code, Store, a).value)
  {
    PutFlat(a.frames, Base(a.frames) + Operand(code, a, 1).value, Operand(code, a, 2).value);
  }

  lemma FollowsPush(env: Env, code: seq<int>, op: Op, c: Config, a: Abs)
    requires Fetched(c, a) && AbsExec(env, code, op, a).Some?
    requires op == Push || op == PushR
    ensures Follows(env, Exec(env, code, op, c), AbsExec(env, code, op, a).value)
  {
    hide SPush, Body, Flat, Base, Stopped, ReadReg, GetReg, Next;
    FetchOperand(code, c, a);
    var c1 := Next(code, c).value.0;
    var w := Operand(code, a, 1).value;
    if op == PushR { ReadAgrees(c1, a, w); }
    var v := if op == Push then w else GetReg(c1, w).value;
    PushFollows(env, c1, a, v);
    BodySkips(SPush(env, c1, v).value, PushOn(a, v), 2);
  }

  lemma FetchOperand(code: seq<int>, c: Config, a: Abs)
    requires Fetched(c, a) && Operand(code, a, 1).Some?
    ensures var d := Next(code, c);
      d.Some? && d.value.1 == Operand(code, a, 1).value && Body(d.value.0, a) && d.value.0.regs[IP] == a.pc + 1
  {
  }

  lemma ReadAgrees(c: Config, a: Abs, r: int)
    requires Body(c, a) && a.on && c.regs[IP] == a.pc + 1
    ensures GetReg(c, r) == ReadReg(a, r, a.pc + 1)
  {
  }

  lemma FollowsPop(env: Env, code: seq<int>, c: Config, a: Abs)
    requires Fetched(c, a) && AbsExec(env, code, Pop, a).Some?
    ensures Follows(env, Exec(env, code, Pop, c), AbsExec(env, code, Pop, a).value)
  {
    PopFollows(env, c, a);
  }

  lemma FollowsUnary(env: Env, code: seq<int>, op: Op, c: Config, a: Abs)
    requires Fetched(c, a) && AbsExec(env, code, op, a).Some?
    requires op == Not || op == Inc || op == Dec
    ensures Follows(env, Exec(env, code, op, c), AbsExec(env, code, op, a).value)
  {
    hide SPop, SPush, Body, Flat, Base, Stopped;
    PopFollows(env, c, a);
    var (a1, x) := PopOff(a).value;
    var v := if op == Not then env.invert(x) else if op == Inc then x + 1 else x - 1;
    PushFollows(env, SPop(env, c).value.0, a1, v);
    BodySkips(SPush(env, SPop(env, c).value.0, v).value, PushOn(a1, v), 1);
  }

  lemma FollowsBin(env: Env, code: seq<int>, f: Fun, c: Config, a: Abs)
    requires Fetched(c, a) && AbsExec(env, code, Bin(f), a).Some?
    ensures Follows(env, Exec(env, code, Bin(f), c), AbsExec(env, code, Bin(f), a).value)
  {
    hide SPop, SPush, Body, Flat, Base, Stopped;
    PopFollows(env, c, a);
    var (a1, y) := PopOff(a).value;
    var c1 := SPop(env, c).value.0;
    PopFollows(env, c1, a1);
    var (a2, x) := PopOff(a1).value;
    var v := Apply(env, f, x, y).value;
    PushFollows(env, SPop(env, c1).value.0, a2, v);
    BodySkips(SPush(env, SPop(env, c1).value.0, v).value, PushOn(a2, v), 1);
  }

  lemma JumpFollows(code: seq<int>, c: Config, a: Abs, taken: bool, relative: bool)
    requires Fetched(c, a) && AbsJump(code, a, taken, relative).Some?
    ensures var d := JumpIf(code, c, taken, relative);
      d.Some? && Related(d.value, AbsJump(code, a, taken, relative).value)
  {
  }

  lemma FollowsJump(env: Env, code: seq<int>, op: Op, c: Config, a: Abs)
    requires Fetched(c, a) && AbsExec(env, code, op, a).Some?
    requires op == Jmp || op == RJmp
    ensures Follows(env, Exec(env, code, op, c), AbsExec(env, code, op, a).value)
  {
    JumpFollows(code, c, a, true, op == RJmp);
  }

  lemma FollowsBranch(env: Env, code: seq<int>, op: Op, c: Config, a: Abs)
    requires Fetched(c, a) && AbsExec(env, code, op, a).Some?
    requires op == Jz || op == RJz || op == JNz || op == RJNz
    ensures Follows(env, Exec(env, code, op, c), AbsExec(env, code, op, a).value)
  {
    hide SPop, SPush, Body, Flat, Base, Stopped;
    PopFollows(env, c, a);
    var (a1, x) := PopOff(a).value;
    JumpFollows(code, SPop(env, c).value.0, a1, (x == 0) == (op == Jz || op == RJz), op == RJz || op == RJNz);
  }

  // The two saved words go on top of the caller's frame, which then becomes part of a larger one.
  lemma CallLayout(fs: Frames, ret: int)
    ensures var g := fs.(data := fs.data + [Base(fs)]);
      Flat(g.(data := g.data + [ret - 1])) == Flat(Above(fs, ret, []))
  {
    var g := fs.(data := fs.data + [Base(fs)]);
    FlatTop(fs, fs.data + [Base(fs)]);
    FlatTop(g, g.data + [ret - 1]);
  }

  lemma PushesFollow(env: Env, c: Config, a: Abs, ret: int)
    requires Body(c, a) && a.on && c.regs[IP] == ret - 1
    ensures var d := SPush(env, c, c.regs[FP]);
      d.Some? && d.value.regs[IP] == ret - 1 &&
      var e := SPush(env, d.value, ret - 1);
      e.Some? && (Stopped(env, e.value) || Body(e.value, PushOn(PushOn(a, Base(a.frames)), ret - 1)))
  {
    PushFollows(env, c, a, Base(a.frames));
    var d := SPush(env, c, Base(a.frames)).value;
    if Stopped(env, d) {
      PushStopped(env, d, ret - 1);
    } else {
      PushFollows(env, d, PushOn(a, Base(a.frames)), ret - 1);
    }
  }

  lemma FollowsCall(env: Env, code: seq<int>, c: Config, a: Abs)
    requires Fetched(c, a) && AbsExec(env, code, Call, a).Some?
    ensures Follows(env, Exec(env, code, Call, c), AbsExec(env, code, Call, a).value)
  {
    hide SPush;
    PushesFollow(env, Next(code, c).value.0, a, a.pc + 2);
    CallLayout(a.frames, a.pc + 2);
  }

  // Popping down to the frame's base uncovers the two saved words.
  lemma FollowsRet(env: Env, code: seq<int>, c: Config, a: Abs)
    requires Fetched(c, a) && AbsExec(env, code, Ret, a).Some?
    ensures Follows(env, Exec(env, code, Ret, c), AbsExec(env, code, Ret, a).value)
  {
    var fs := a.frames;
    var n := |Flat(fs.caller)|;
    assert Flat(fs)[n] == Base(fs.caller) && Flat(fs)[n + 1] == fs.ret - 1;
    assert c.mem[n] == Flat(fs)[n] && c.mem[n + 1] == Flat(fs)[n + 1];
    assert Flat(fs)[..n] == Flat(fs.caller);
    assert Flat(fs.caller) <= c.mem;
  }

  lemma ExecFollows(env: Env, code: seq<int>, op: Op, c: Config, a: Abs)
    requires Fetched(c, a) && AbsExec(env, code, op, a).Some?
    ensures Follows(env, Exec(env, code, op, c), AbsExec(env, code, op, a).value)
  {
    hide Exec, AbsExec, Body;
    match op
    case Halt => FollowsSimple(env, code, op, c, a);
    case Nop => FollowsSimple(env, code, op, c, a);
    case LoadR => FollowsSet(env, code, op, c, a);
    case Mov => FollowsSet(env, code, op, c, a);
    case PReg => FollowsSimple(env, code, op, c, a);
    case PTop => FollowsPTop(env, code, c, a);
    case IncR => FollowsBump(env, code, op, c, a);
    case DecR => FollowsBump(env, code, op, c, a);
    case Load => FollowsLoad(env, code, c, a);
    case Store => FollowsStore(env, code, c, a);
    case Push => FollowsPush(env, code, op, c, a);
    case PushR => FollowsPush(env, code, op, c, a);
    case Pop => FollowsPop(env, code, c, a);
    case Not => FollowsUnary(env, code, op, c, a);
    case Inc => FollowsUnary(env, code, op, c, a);
    case Dec => FollowsUnary(env, code, op, c, a);
    case Bin(f) => FollowsBin(env, code, f, c, a);
    case Jmp => FollowsJump(env, code, op, c, a);
    case RJmp => FollowsJump(env, code, op, c, a);
    case Jz => FollowsBranch(env, code, op, c, a);
    case RJz => FollowsBranch(env, code, op, c, a);
    case JNz => FollowsBranch(env, code, op, c, a);
    case RJNz => FollowsBranch(env, code, op, c, a);
    case Call => FollowsCall(env, code, c, a);
    case Ret => FollowsRet(env, code, c, a);
  }

  lemma StepFollows(env: Env, code: seq<int>, c: Config, a: Abs)
    requires Related(c, a) && a.on && AbsStep(env, code, a).Some?
    ensures Follows(env, Step(env, code, c), AbsStep(env, code, a).value)
  {
    hide Decode, Exec, AbsExec;
    var op := Decode(Operand(code, a, 0).value).value;
    ExecFollows(env, code, op, Next(code, c).value.0, a);
  }

  /** The main result: as long as the call-stack machine has a run, the machine has one of the same
      length, ending in the related state, unless it was refused memory on the way and stopped. */
  lemma RunFollows(env: Env, code: seq<int>, c: Config, a: Abs, n: nat)
    requires Related(c, a) && AbsTurns(env, code, a, n).Some?
    ensures Follows(env, Turns(env, code, c, n), AbsTurns(env, code, a, n).value)
  {
    hide Step, AbsStep;
    forall x: Config, y: Abs | Related(x, y) && y.on && AbsStep(env, code, y).Some?
      ensures Follows(env, Step(env, code, x), AbsStep(env, code, y).value)
    {
      StepFollows(env, code, x, y);
    }
    RunSimulates((d: Config) => Step(env, code, d), On,
                 (b: Abs) => AbsStep(env, code, b), (b: Abs) => b.on,
                 Related, (d: Config) => Stopped(env, d), c, a, n);
  }
}
