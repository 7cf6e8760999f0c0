/** What calls keep: the chain of saved frame pointers, and everything a caller owns. */
module Calls {
  import opened Bytecode
  import opened Runs
  import opened Vm
  import opened CallStack
  import opened Simulation

  // ---------------------------------------------------------------- the saved frame pointers

  /** Following saved frame pointers from fp reaches 0 after `depth` strictly decreasing hops, every
      one of them, and the return address above it, inside the buffer. */
  predicate FrameChain(mem: seq<int>, fp: int, depth: nat)
    decreases depth
  {
    if depth == 0 then fp == 0
    else 2 <= fp <= |mem| && 0 <= mem[fp - 2] <= fp - 2 && FrameChain(mem, mem[fp - 2], depth - 1)
  }

  lemma {:induction false} FlatChain(fs: Frames, mem: seq<int>)
    requires Flat(fs) <= mem
    ensures FrameChain(mem, Base(fs), Depth(fs))
    decreases fs
  {
    if fs.Above? {
      var n := |Flat(fs.caller)|;
      assert Flat(fs)[n] == Base(fs.caller) && mem[n] == Flat(fs)[n];
      assert Flat(fs)[..n] == Flat(fs.caller);
      assert Flat(fs.caller) <= mem;
      FlatChain(fs.caller, mem);
    }
  }

  /** In every state a disciplined run reaches, FP <= SP <= the capacity of the stack, and the saved
      frame pointers form a chain as long as the calls in progress. */
  lemma ReachableFrames(env: Env, code: seq<int>, c: Config, a: Abs, n: nat)
    requires Related(c, a) && AbsTurns(env, code, a, n).Some?
    requires Turns(env, code, c, n).Some? ==> !Stopped(env, Turns(env, code, c, n).value)
    ensures var d := Turns(env, code, c, n);
      && d.Some?
      && 0 <= d.value.regs[FP] <= d.value.regs[SP] <= |d.value.mem|
      && FrameChain(d.value.mem, d.value.regs[FP], Depth(AbsTurns(env, code, a, n).value.frames))
  {
    hide Turns, AbsTurns;
    RunFollows(env, code, c, a, n);
    var fs := AbsTurns(env, code, a, n).value.frames;
    FlatChain(fs, Turns(env, code, c, n).value.mem);
    FlatTop(fs, fs.data);
  }

  // ---------------------------------------------------------------- the caller's part of the stack

  // The frames as they are d calls deep.
  function Outer(fs: Frames, d: nat): Frames
    requires d <= Depth(fs)
    decreases fs
  {
    if Depth(fs) == d then fs else Outer(fs.caller, d)
  }

  // Where the call that went from depth d to d + 1 returns to.
  function ReturnTo(fs: Frames, d: nat): int
    requires d < Depth(fs)
    decreases fs
  {
    if Depth(fs) == d + 1 then fs.ret else ReturnTo(fs.caller, d)
  }

  predicate SameBut(s: seq<int>, t: seq<int>, at: set<int>) {
    |s| == |t| && forall i :: 0 <= i < |s| && i !in at ==> s[i] == t[i]
  }

  // The stack index a STORE about to be executed names.
  function Stored(code: seq<int>, a: Abs): set<int> {
    if Operand(code, a, 0) == Some(4) && Operand(code, a, 1).Some?
    then {Base(a.frames) + Operand(code, a, 1).value} else {}
  }

  function AllStored(env: Env, code: seq<int>, a: Abs, n: nat): set<int>
    decreases n
  {
    if n == 0 || !a.on || AbsStep(env, code, a).None? then {}
    else Stored(code, a) + AllStored(env, code, AbsStep(env, code, a).value, n - 1)
  }

  lemma {:induction false} PutOuter(fs: Frames, i: int, v: int, d: nat)
    requires Put(fs, i, v).Some? && d < Depth(fs)
    ensures var gs := Put(fs, i, v).value;
      && Depth(gs) == Depth(fs) && ReturnTo(gs, d) == ReturnTo(fs, d)
      && Base(Outer(gs, d)) == Base(Outer(fs, d))
      && SameBut(Flat(Outer(fs, d)), Flat(Outer(gs, d)), {i})
    decreases fs
  {
    if !(Base(fs) <= i < |Flat(fs)|) {
      if Depth(fs) == d + 1 {
        PutDepth(fs.caller, i, v);
        PutFlat(fs.caller, i, v);
      } else {
        PutOuter(fs.caller, i, v, d);
      }
    }
  }

  lemma {:induction false} PutDepth(fs: Frames, i: int, v: int)
    requires Put(fs, i, v).Some?
    ensures Depth(Put(fs, i, v).value) == Depth(fs)
    decreases fs
  {
    if !(Base(fs) <= i < |Flat(fs)|) {
      PutDepth(fs.caller, i, v);
    }
  }

  // What one step below a call at depth d leaves of the caller.
  predicate KeepsOuter(a: Abs, b: Abs, d: nat, at: set<int>) {
    && d < Depth(a.frames) && d <= Depth(b.frames)
    && Base(Outer(b.frames, d)) == Base(Outer(a.frames, d))
    && SameBut(Flat(Outer(a.frames, d)), Flat(Outer(b.frames, d)), at)
    && (if d < Depth(b.frames) then ReturnTo(b.frames, d) == ReturnTo(a.frames, d)
        else b.pc == ReturnTo(a.frames, d))
  }

  // Every other instruction works on the top frame's own operands.
  lemma ExecKeepsCallers(env: Env, code: seq<int>, op: Op, a: Abs)
    requires op != Call && op != Ret && op != Store && AbsExec(env, code, op, a).Some?
    ensures exists d :: AbsExec(env, code, op, a).value.frames == a.frames.(data := d)
  {
    var fs := AbsExec(env, code, op, a).value.frames;
    assert fs == a.frames.(data := fs.data);
  }

  lemma ExecKeepsOuter(env: Env, code: seq<int>, op: Op, a: Abs, d: nat)
    requires d < Depth(a.frames) && Operand(code, a, 0).Some? && Decode(Operand(code, a, 0).value) == Some(op)
    requires AbsExec(env, code, op, a).Some?
    ensures KeepsOuter(a, AbsExec(env, code, op, a).value, d, Stored(code, a))
  {
    if op == Store {
      PutOuter(a.frames, Base(a.frames) + Operand(code, a, 1).value, Operand(code, a, 2).value, d);
    } else if op != Call && op != Ret {
      ExecKeepsCallers(env, code, op, a);
    }
  }

  // ---------------------------------------------------------------- balanced calls

  // n + 1 steps from inside the call lead back to depth d: the last one is the matching RET.
  predicate ReturnsIn(env: Env, code: seq<int>, a: Abs, d: nat, n: nat)
    decreases n
  {
    && d < Depth(a.frames) && a.on && AbsStep(env, code, a).Some?
    && var b := AbsStep(env, code, a).value;
       if n == 0 then Depth(b.frames) == d else ReturnsIn(env, code, b, d, n - 1)
  }

  lemma StepKeepsOuter(env: Env, code: seq<int>, a: Abs, d: nat)
    requires d < Depth(a.frames) && AbsStep(env, code, a).Some?
    ensures KeepsOuter(a, AbsStep(env, code, a).value, d, Stored(code, a))
  {
    hide AbsExec;
    ExecKeepsOuter(env, code, Decode(Operand(code, a, 0).value).value, a, d);
  }

  lemma AbsTurnsOne(env: Env, code: seq<int>, a: Abs, n: nat)
    requires a.on && AbsStep(env, code, a).Some?
    ensures AbsTurns(env, code, a, n + 1) == AbsTurns(env, code, AbsStep(env, code, a).value, n)
  {
    hide AbsStep;
  }

  lemma {:induction false} ReturnKeepsOuter(env: Env, code: seq<int>, a: Abs, d: nat, n: nat)
    requires ReturnsIn(env, code, a, d, n)
    ensures AbsTurns(env, code, a, n + 1).Some?
    ensures var b := AbsTurns(env, code, a, n + 1).value;
      && Depth(b.frames) == d && b.pc == ReturnTo(a.frames, d)
      && Base(b.frames) == Base(Outer(a.frames, d))
      && SameBut(Flat(Outer(a.frames, d)), Flat(b.frames), AllStored(env, code, a, n + 1))
    decreases n
  {
    hide AbsStep;
    StepKeepsOuter(env, code, a, d);
    AbsTurnsOne(env, code, a, n);
    var b := AbsStep(env, code, a).value;
    if n == 0 {
      assert AbsTurns(env, code, b, 0) == Some(b);
    } else {
      ReturnKeepsOuter(env, code, b, d, n - 1);
    }
  }

  // b is one call deeper than a, and will return to the position after the call.
  predicate Entered(a: Abs, b: Abs) {
    && Depth(b.frames) == Depth(a.frames) + 1 && Outer(b.frames, Depth(a.frames)) == a.frames
    && ReturnTo(b.frames, Depth(a.frames)) == a.pc + 2
  }

  lemma CallEnters(env: Env, code: seq<int>, a: Abs)
    requires Operand(code, a, 0) == Some(32) && AbsStep(env, code, a).Some?
    ensures Entered(a, AbsStep(env, code, a).value)
  {
    hide AbsStep;
    AbsStepExecutes(env, code, a, Call);
    assert AbsExec(env, code, Call, a).value.frames == Above(a.frames, a.pc + 2, []);
    EnterFrame(a.frames, a.pc + 2);
  }

  lemma EnterFrame(fs: Frames, ret: int)
    ensures var gs := Above(fs, ret, []);
      Depth(gs) == Depth(fs) + 1 && Outer(gs, Depth(fs)) == fs && ReturnTo(gs, Depth(fs)) == ret
  {
  }

  // The caller finds its frames as it left them, but for words that a STORE named.
  predicate Resumes(a: Abs, e: Abs, at: set<int>) {
    e.pc == a.pc + 2 && Base(e.frames) == Base(a.frames) && SameBut(Flat(a.frames), Flat(e.frames), at)
  }

  lemma AbsCallReturns(env: Env, code: seq<int>, a: Abs, n: nat)
    requires a.on && Operand(code, a, 0) == Some(32) && AbsStep(env, code, a).Some?
    requires ReturnsIn(env, code, AbsStep(env, code, a).value, Depth(a.frames), n)
    ensures AbsTurns(env, code, a, n + 2).Some?
    ensures Resumes(a, AbsTurns(env, code, a, n + 2).value, AllStored(env, code, AbsStep(env, code, a).value, n + 1))
  {
    hide AbsStep;
    CallEnters(env, code, a);
    ReturnKeepsOuter(env, code, AbsStep(env, code, a).value, Depth(a.frames), n);
    AbsTurnsOne(env, code, a, n + 1);
  }

  predicate ResumesIn(c: Config, d: Config, at: set<int>) {
    && d.regs[IP] == c.regs[IP] + 2 && d.regs[FP] == c.regs[FP] && d.regs[SP] == c.regs[SP]
    && 0 <= c.regs[SP] <= |d.mem| && c.regs[SP] <= |c.mem|
    && forall i :: 0 <= i < c.regs[SP] && i !in at ==> d.mem[i] == c.mem[i]
  }

  lemma ResumesRelated(c: Config, a: Abs, d: Config, e: Abs, at: set<int>)
    requires Related(c, a) && Related(d, e) && Resumes(a, e, at)
    ensures ResumesIn(c, d, at)
  {
    var n := |Flat(a.frames)|;
    assert c.mem[..n] == Flat(a.frames) && d.mem[..n] == Flat(e.frames);
    forall i | 0 <= i < n && i !in at ensures d.mem[i] == c.mem[i] {
      assert c.mem[i] == Flat(a.frames)[i] && d.mem[i] == Flat(e.frames)[i];
    }
  }

  lemma RunResumes(env: Env, code: seq<int>, c: Config, a: Abs, k: nat, at: set<int>)
    requires Related(c, a) && AbsTurns(env, code, a, k).Some? && Resumes(a, AbsTurns(env, code, a, k).value, at)
    ensures var d := Turns(env, code, c, k); d.Some? && (Stopped(env, d.value) || ResumesIn(c, d.value, at))
  {
    hide Turns, AbsTurns;
    RunFollows(env, code, c, a, k);
    var d, e := Turns(env, code, c, k).value, AbsTurns(env, code, a, k).value;
    if Related(d, e) {
      ResumesRelated(c, a, d, e, at);
    }
  }

  /** Balanced calls: a CALL at depth d whose body needs n + 1 steps to come back to depth d.  With
      calls nested to any depth in between, the machine resumes just after the call's operand, with
      FP and SP as they were, and below SP only words named by a STORE have changed. */
  lemma CallReturns(env: Env, code: seq<int>, c: Config, a: Abs, n: nat)
    requires Related(c, a) && a.on && Operand(code, a, 0) == Some(32) && AbsStep(env, code, a).Some?
    requires ReturnsIn(env, code, AbsStep(env, code, a).value, Depth(a.frames), n)
    ensures var d := Turns(env, code, c, n + 2);
      var at := AllStored(env, code, AbsStep(env, code, a).value, n + 1);
      d.Some? && (Stopped(env, d.value) || ResumesIn(c, d.value, at))
  {
    hide *;
    AbsCallReturns(env, code, a, n);
    RunResumes(env, code, c, a, n + 2, AllStored(env, code, AbsStep(env, code, a).value, n + 1));
  }
}
