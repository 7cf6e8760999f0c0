/** The steps that the example programs take, and how steps make runs. */
module Steps {
  import opened Bytecode
  import opened Runs
  import opened Vm
  import opened CallStack
  import opened Simulation

  // ---------------------------------------------------------------- chains of steps

  ghost predicate Leads(env: Env, code: seq<int>, a: Abs, n: nat, b: Abs) {
    AbsTurns(env, code, a, n) == Some(b)
  }

  lemma Chain(env: Env, code: seq<int>, a: Abs, n: nat, b: Abs, c: Abs)
    requires Leads(env, code, a, n, b) && b.on && AbsStep(env, code, b) == Some(c)
    ensures Leads(env, code, a, n + 1, c)
  {
    hide AbsStep;
    RunAdd((x: Abs) => AbsStep(env, code, x), (x: Abs) => x.on, a, n, 1);
    assert Run((x: Abs) => AbsStep(env, code, x), (x: Abs) => x.on, b, 1)
           == Run((x: Abs) => AbsStep(env, code, x), (x: Abs) => x.on, c, 0);
  }

  lemma Compose(env: Env, code: seq<int>, a: Abs, m: nat, b: Abs, n: nat, c: Abs)
    requires Leads(env, code, a, m, b) && Leads(env, code, b, n, c)
    ensures Leads(env, code, a, m + n, c)
  {
    hide AbsStep;
    RunAdd((x: Abs) => AbsStep(env, code, x), (x: Abs) => x.on, a, m, n);
  }

  // Where the abstract machine leads, the machine follows.
  lemma FollowLeads(env: Env, code: seq<int>, c: Config, a: Abs, m: nat, b: Abs)
    requires Related(c, a) && Leads(env, code, a, m, b)
    ensures Follows(env, Turns(env, code, c, m), b)
  {
    hide Turns, AbsTurns;
    RunFollows(env, code, c, a, m);
  }

  // ---------------------------------------------------------------- single steps

  lemma DoNop(env: Env, code: seq<int>, a: Abs)
    requires Operand(code, a, 0) == Some(1)
    ensures AbsStep(env, code, a) == Some(Skip(a, 1))
  {
    AbsStepExecutes(env, code, a, Nop);
  }

  lemma DoHalt(env: Env, code: seq<int>, a: Abs)
    requires Operand(code, a, 0) == Some(0)
    ensures AbsStep(env, code, a) == Some(Skip(a, 1).(on := false))
  {
    AbsStepExecutes(env, code, a, Halt);
  }

  lemma DoLoadR(env: Env, code: seq<int>, a: Abs, r: nat, v: int)
    requires Operand(code, a, 0) == Some(2) && Operand(code, a, 1) == Some(r) && Operand(code, a, 2) == Some(v)
    requires r < NUM_REGS && !Reserved(r)
    ensures AbsStep(env, code, a) == Some(Skip(a.(regs := a.regs[r := v]), 3))
  {
    AbsStepExecutes(env, code, a, LoadR);
  }

  lemma DoLoad(env: Env, code: seq<int>, a: Abs, rel: int)
    requires Operand(code, a, 0) == Some(3) && Operand(code, a, 1) == Some(rel)
    requires 0 <= Base(a.frames) + rel < |Flat(a.frames)|
    ensures AbsStep(env, code, a) == Some(Skip(PushOn(a, Flat(a.frames)[Base(a.frames) + rel]), 2))
  {
    AbsStepExecutes(env, code, a, Load);
  }

  lemma DoMov(env: Env, code: seq<int>, a: Abs, dst: nat, src: nat)
    requires Operand(code, a, 0) == Some(5) && Operand(code, a, 1) == Some(dst) && Operand(code, a, 2) == Some(src)
    requires dst < NUM_REGS && src < NUM_REGS && !Reserved(dst) && !Reserved(src)
    ensures AbsStep(env, code, a) == Some(Skip(a.(regs := a.regs[dst := a.regs[src]]), 3))
  {
    AbsStepExecutes(env, code, a, Mov);
  }

  lemma DoBin(env: Env, code: seq<int>, a: Abs, f: Fun, d: seq<int>, x: int, y: int, v: int)
    requires Operand(code, a, 0).Some? && Decode(Operand(code, a, 0).value) == Some(Bin(f))
    requires a.frames.data == d + [x, y] && Apply(env, f, x, y) == Some(v)
    ensures AbsStep(env, code, a) == Some(Skip(a.(frames := a.frames.(data := d + [v])), 1))
  {
    AbsStepExecutes(env, code, a, Bin(f));
    assert (d + [x, y])[..|d| + 1] == d + [x] && (d + [x])[..|d|] == d;
  }

  lemma DoDecR(env: Env, code: seq<int>, a: Abs, r: nat)
    requires Operand(code, a, 0) == Some(17) && Operand(code, a, 1) == Some(r)
    requires r < NUM_REGS && !Reserved(r) && InWord(a.regs[r] - 1)
    ensures AbsStep(env, code, a) == Some(Skip(a.(regs := a.regs[r := a.regs[r] - 1]), 2))
  {
    AbsStepExecutes(env, code, a, DecR);
  }

  lemma DoPushR(env: Env, code: seq<int>, a: Abs, r: nat)
    requires Operand(code, a, 0) == Some(20) && Operand(code, a, 1) == Some(r) && r < NUM_REGS && !Reserved(r)
    ensures AbsStep(env, code, a) == Some(Skip(PushOn(a, a.regs[r]), 2))
  {
    AbsStepExecutes(env, code, a, PushR);
  }

  lemma DoPush(env: Env, code: seq<int>, a: Abs, v: int)
    requires Operand(code, a, 0) == Some(21) && Operand(code, a, 1) == Some(v)
    ensures AbsStep(env, code, a) == Some(Skip(PushOn(a, v), 2))
  {
    AbsStepExecutes(env, code, a, Push);
  }

  lemma DoPop(env: Env, code: seq<int>, a: Abs, r: nat, d: seq<int>, v: int)
    requires Operand(code, a, 0) == Some(22) && Operand(code, a, 1) == Some(r) && r < NUM_REGS && !Reserved(r)
    requires a.frames.data == d + [v]
    ensures AbsStep(env, code, a) == Some(Skip(a.(regs := a.regs[r := v], frames := a.frames.(data := d)), 2))
  {
    AbsStepExecutes(env, code, a, Pop);
    assert (d + [v])[..|d|] == d;
  }

  // jnz and rjnz
  lemma DoJump(env: Env, code: seq<int>, a: Abs, op: Op, w: int, d: seq<int>, v: int)
    requires op == JNz || op == RJNz
    requires Operand(code, a, 0).Some? && Decode(Operand(code, a, 0).value) == Some(op)
    requires Operand(code, a, 1) == Some(w) && a.frames.data == d + [v] && InWord(a.pc + w)
    ensures AbsStep(env, code, a) ==
            Some(a.(frames := a.frames.(data := d),
                    pc := if v == 0 then a.pc + 2 else if op == JNz then w + 1 else a.pc + w + 1))
  {
    AbsStepExecutes(env, code, a, op);
    assert (d + [v])[..|d|] == d;
  }

  lemma DoCall(env: Env, code: seq<int>, a: Abs, addr: int)
    requires Operand(code, a, 0) == Some(32) && Operand(code, a, 1) == Some(addr) && InWord(addr - 1)
    ensures AbsStep(env, code, a) == Some(a.(frames := Above(a.frames, a.pc + 2, []), pc := addr))
  {
    AbsStepExecutes(env, code, a, Call);
  }

  lemma DoRet(env: Env, code: seq<int>, a: Abs)
    requires Operand(code, a, 0) == Some(33) && a.frames.Above?
    ensures AbsStep(env, code, a) == Some(a.(frames := a.frames.caller, pc := a.frames.ret))
  {
    AbsStepExecutes(env, code, a, Ret);
  }

  lemma DoPReg(env: Env, code: seq<int>, a: Abs, r: nat)
    requires Operand(code, a, 0) == Some(34) && Operand(code, a, 1) == Some(r) && r < NUM_REGS && !Reserved(r)
    ensures AbsStep(env, code, a) == Some(Skip(a.(out := a.out + [a.regs[r]]), 2))
  {
    AbsStepExecutes(env, code, a, PReg);
  }

  lemma DoPTop(env: Env, code: seq<int>, a: Abs, d: seq<int>, v: int)
    requires Operand(code, a, 0) == Some(35) && a.frames.data == d + [v]
    ensures AbsStep(env, code, a) == Some(Skip(a.(out := a.out + [v]), 1))
  {
    AbsStepExecutes(env, code, a, PTop);
  }
}
