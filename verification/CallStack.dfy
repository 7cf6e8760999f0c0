/** The same machine with an explicit call stack: every call has an operand stack of its own, and
    no frame pointer is stored anywhere.  A program is disciplined as long as this machine has a
    next step: it names no reserved register as a destination, pops only what its own frame pushed,
    and loads and stores below the stack height, stores never hitting a saved word.
  */
module CallStack {
  import opened Bytecode
  import opened Runs
  import opened Vm

  // `ret` is the position at which the caller resumes.
  datatype Frames = Bottom(data: seq<int>) | Above(caller: Frames, ret: int, data: seq<int>)

  // `pc` is the position of the next instruction.
  datatype Abs = Abs(regs: Regs, frames: Frames, pc: int, out: seq<int>, on: bool)

  // ---------------------------------------------------------------- the layout of the frames

  function Depth(fs: Frames): nat {
    match fs
    case Bottom(_) => 0
    case Above(f, _, _) => Depth(f) + 1
  }

  // The words the frames occupy, with two saved words below each called frame.
  function Flat(fs: Frames): seq<int> {
    match fs
    case Bottom(d) => d
    case Above(f, ret, d) => Flat(f) + [Base(f), ret - 1] + d
  }

  // Where the operands of the top frame start.
  function Base(fs: Frames): nat {
    match fs
    case Bottom(_) => 0
    case Above(f, _, _) => |Flat(f)| + 2
  }

  // v stored at absolute index i, unless a saved word lives there.
  function Put(fs: Frames, i: int, v: int): (r: Option<Frames>)
    ensures r.Some? ==> 0 <= i < |Flat(fs)|
  {
    if Base(fs) <= i < |Flat(fs)| then
      assert |Flat(fs)| == Base(fs) + |fs.data|;
      Some(fs.(data := fs.data[i - Base(fs) := v]))
    else if fs.Above? && i < |Flat(fs.caller)| then
      var f :- Put(fs.caller, i, v);
      Some(fs.(caller := f))
    else None
  }

  // ---------------------------------------------------------------- one step

  function Operand(code: seq<int>, a: Abs, k: nat): Option<int> {
    if 0 <= a.pc + k < |code| then Some(code[a.pc + k]) else None
  }

  // What an instruction whose last fetched word is at position `ip` reads in register r.
  function ReadReg(a: Abs, r: int, ip: int): Option<int> {
    if !(0 <= r < NUM_REGS) then None
    else if r == IP then Some(ip)
    else if r == SP then Some(|Flat(a.frames)|)
    else if r == FP then Some(Base(a.frames))
    else if r == RUN then Some(1)
    else if r == EXT then Some(0)
    else Some(a.regs[r])
  }

  function WriteReg(a: Abs, r: int, v: int): Option<Abs> {
    if !RegWord(r) || Reserved(r) then None
    else if r >= NUM_REGS then Some(a)
    else Some(a.(regs := a.regs[r := v]))
  }

  function BumpReg(a: Abs, r: int, d: int): Option<Abs> {
    if !RegWord(r) || Reserved(r) then None
    else if r >= NUM_REGS then Some(a)
    else var x :- Word(a.regs[r] + d); Some(a.(regs := a.regs[r := x]))
  }

  function PushOn(a: Abs, v: int): Abs {
    a.(frames := a.frames.(data := a.frames.data + [v]))
  }

  function PopOff(a: Abs): Option<(Abs, int)> {
    var n := |a.frames.data|;
    if n == 0 then None else Some((a.(frames := a.frames.(data := a.frames.data[..n - 1])), a.frames.data[n - 1]))
  }

  // Go on after an instruction of n words.
  function Skip(a: Abs, n: nat): Abs {
    a.(pc := a.pc + n)
  }

  /** Absolute jumps land one past their operand; relative ones count from the opcode, and also
      land one past their target. */
  function AbsJump(code: seq<int>, a: Abs, taken: bool, relative: bool): Option<Abs> {
    var w :- Operand(code, a, 1);
    if !taken then Some(Skip(a, 2))
    else if relative then var x :- Word(a.pc + w); Some(a.(pc := x + 1))
    else Some(a.(pc := w + 1))
  }

  function AbsExec(env: Env, code: seq<int>, op: Op, a: Abs): Option<Abs> {
    match op
    case Halt => Some(Skip(a, 1).(on := false))
    case Nop => Some(Skip(a, 1))
    case LoadR =>
      var r :- Operand(code, a, 1);
      var v :- Operand(code, a, 2);
      var b :- WriteReg(a, r, v);
      Some(Skip(b, 3))
    case Load =>
      var rel :- Operand(code, a, 1);
      var i := Base(a.frames) + rel;
      if 0 <= i < |Flat(a.frames)| then Some(Skip(PushOn(a, Flat(a.frames)[i]), 2)) else None
    case Store =>
      var rel :- Operand(code, a, 1);
      var v :- Operand(code, a, 2);
      var fs :- Put(a.frames, Base(a.frames) + rel, v);
      Some(Skip(a.(frames := fs), 3))
    case Mov =>
      var dst :- Operand(code, a, 1);
      var src :- Operand(code, a, 2);
      var v :- ReadReg(a, src, a.pc + 2);
      var b :- WriteReg(a, dst, v);
      Some(Skip(b, 3))
    case Bin(f) =>
      var (a1, y) :- PopOff(a);
      var (a2, x) :- PopOff(a1);
      var v :- Apply(env, f, x, y);
      Some(Skip(PushOn(a2, v), 1))
    case Not =>
      var (a1, x) :- PopOff(a);
      Some(Skip(PushOn(a1, env.invert(x)), 1))
    case IncR =>
      var r :- Operand(code, a, 1);
      var b :- BumpReg(a, r, 1);
      Some(Skip(b, 2))
    case DecR =>
      var r :- Operand(code, a, 1);
      var b :- BumpReg(a, r, -1);
      Some(Skip(b, 2))
    case Inc =>
      var (a1, x) :- PopOff(a);
      var v :- Word(x + 1);
      Some(Skip(PushOn(a1, v), 1))
    case Dec =>
      var (a1, x) :- PopOff(a);
      var v :- Word(x - 1);
      Some(Skip(PushOn(a1, v), 1))
    case PushR =>
      var r :- Operand(code, a, 1);
      var v :- ReadReg(a, r, a.pc + 1);
      Some(Skip(PushOn(a, v), 2))
    case Push =>
      var v :- Operand(code, a, 1);
      Some(Skip(PushOn(a, v), 2))
    case Pop =>
      var (a1, v) :- PopOff(a);
      var r :- Operand(code, a, 1);
      var b :- WriteReg(a1, r, v);
      Some(Skip(b, 2))
    case Jz =>
      var (a1, x) :- PopOff(a);
      AbsJump(code, a1, x == 0, false)
    case RJz =>
      var (a1, x) :- PopOff(a);
      AbsJump(code, a1, x == 0, true)
    case JNz =>
      var (a1, x) :- PopOff(a);
      AbsJump(code, a1, x != 0, false)
    case RJNz =>
      var (a1, x) :- PopOff(a);
      AbsJump(code, a1, x != 0, true)
    case Jmp => AbsJump(code, a, true, false)
    case RJmp => AbsJump(code, a, true, true)
    case Call =>
      var addr :- Operand(code, a, 1);
      var _ :- Word(addr - 1);
      Some(a.(frames := Above(a.frames, a.pc + 2, []), pc := addr))
    case Ret =>
      if a.frames.Above? then Some(a.(frames := a.frames.caller, pc := a.frames.ret)) else None
    case PReg =>
      var r :- Operand(code, a, 1);
      var v :- ReadReg(a, r, a.pc + 1);
      Some(Skip(a.(out := a.out + [v]), 2))
    case PTop =>
      var (_, v) :- PopOff(a);
      Some(Skip(a.(out := a.out + [v]), 1))
  }

  function AbsStep(env: Env, code: seq<int>, a: Abs): Option<Abs> {
    var w :- Operand(code, a, 0);
    var op :- Decode(w);
    AbsExec(env, code, op, a)
  }

  function AbsTurns(env: Env, code: seq<int>, a: Abs, n: nat): Option<Abs> {
    Run((b: Abs) => AbsStep(env, code, b), (b: Abs) => b.on, a, n)
  }

  lemma AbsStepExecutes(env: Env, code: seq<int>, a: Abs, op: Op)
    requires Operand(code, a, 0).Some? && Decode(Operand(code, a, 0).value) == Some(op)
    ensures AbsStep(env, code, a) == AbsExec(env, code, op, a)
  {
    hide Decode, AbsExec;
  }
}
