/** One turn of the machine of src/machine.c as a function on its whole state.

    `None` stands for what the C standard leaves undefined: a fetch outside the code, a stack index
    outside the buffer, an unknown opcode or register, a division by zero, signed overflow.
  */
module Vm {
  import opened Bytecode
  import opened Runs

  type Regs = s: seq<int> | |s| == NUM_REGS witness seq(NUM_REGS, i => 0)

  // `mem` is the whole stack buffer; the height is register SP.  `tick` counts consultations of
  // the environment.
  datatype Config = Config(regs: Regs, mem: seq<int>, out: seq<int>, tick: nat)

  // ---------------------------------------------------------------- registers

  predicate RegWord(r: int) {
    0 <= r < TWO_31
  }

  function GetReg(c: Config, r: int): Option<int> {
    if 0 <= r < NUM_REGS then Some(c.regs[r]) else None
  }

  // A register number past the end is ignored; a negative one is not caught.
  function SetReg(c: Config, r: int, v: int): Option<Config> {
    if !RegWord(r) then None else if r >= NUM_REGS then Some(c) else Some(c.(regs := c.regs[r := v]))
  }

  function AddReg(c: Config, r: int, v: int): Option<Config> {
    if !RegWord(r) then None
    else if r >= NUM_REGS then Some(c)
    else var x :- Word(c.regs[r] + v); Some(c.(regs := c.regs[r := x]))
  }

  // carp_vm_exit and carp_vm_err
  function Exit(c: Config, code: int): Config {
    c.(regs := c.regs[RUN := 0][EXT := ToInt(code)])
  }

  function Err(c: Config): Config {
    Exit(c, 1).(tick := c.tick + 1)
  }

  // ---------------------------------------------------------------- stack

  function SPop(env: Env, c: Config): Option<(Config, int)> {
    var h := c.regs[SP];
    if h == 0 then Some((Err(c), env.junk(c.tick, 0)))
    else if 0 < h <= |c.mem| then Some((c.(regs := c.regs[SP := h - 1]), c.mem[h - 1]))
    else None
  }

  function Grown(env: Env, c: Config): seq<int> {
    c.mem + seq(|c.mem| + 1, i requires 0 <= i => env.junk(c.tick, i))
  }

  function SPush(env: Env, c: Config, v: int): Option<Config> {
    var h := c.regs[SP];
    if h == |c.mem| && !env.grants(c.tick) then Some(Err(c))
    else if h == |c.mem| then
      Some(c.(regs := c.regs[SP := h + 1], mem := Grown(env, c)[h := v], tick := c.tick + 1))
    else if 0 <= h < |c.mem| then Some(c.(regs := c.regs[SP := h + 1], mem := c.mem[h := v]))
    else None
  }

  // ---------------------------------------------------------------- fetching

  function Peek(code: seq<int>, c: Config): Option<int> {
    if 0 <= c.regs[IP] + 1 < |code| then Some(code[c.regs[IP] + 1]) else None
  }

  // carp_vm_next
  function Next(code: seq<int>, c: Config): Option<(Config, int)> {
    var w :- Peek(code, c);
    Some((c.(regs := c.regs[IP := c.regs[IP] + 1]), w))
  }

  // ---------------------------------------------------------------- instructions

  function JumpIf(code: seq<int>, c: Config, taken: bool, relative: bool): Option<Config> {
    if taken && relative then
      var w :- Peek(code, c);
      AddReg(c, IP, w)
    else
      var (c1, w) :- Next(code, c);
      if taken then SetReg(c1, IP, w) else Some(c1)
  }

  function Exec(env: Env, code: seq<int>, op: Op, c: Config): Option<Config> {
    match op
    case Halt => Some(Exit(c, c.regs[EXT]))
    case Nop => Some(c)
    case LoadR =>
      var (c1, r) :- Next(code, c);
      var (c2, v) :- Next(code, c1);
      SetReg(c2, r, v)
    case Load =>
      var (c1, rel) :- Next(code, c);
      var i := c1.regs[FP] + rel;
      if 0 <= i < |c1.mem| then SPush(env, c1, c1.mem[i]) else None
    case Store =>
      var (c1, rel) :- Next(code, c);
      var (c2, v) :- Next(code, c1);
      var i := c2.regs[FP] + rel;
      if 0 <= i < |c2.mem| then Some(c2.(mem := c2.mem[i := v])) else None
    case Mov =>
      var (c1, dst) :- Next(code, c);
      var (c2, src) :- Next(code, c1);
      var v :- GetReg(c2, src);
      SetReg(c2, dst, v)
    case Bin(f) =>
      var (c1, b) :- SPop(env, c);
      var (c2, a) :- SPop(env, c1);
      var v :- Apply(env, f, a, b);
      SPush(env, c2, v)
    case Not =>
      var (c1, a) :- SPop(env, c);
      SPush(env, c1, env.invert(a))
    case IncR =>
      var (c1, r) :- Next(code, c);
      AddReg(c1, r, 1)
    case DecR =>
      var (c1, r) :- Next(code, c);
      AddReg(c1, r, -1)
    case Inc =>
      var (c1, a) :- SPop(env, c);
      var v :- Word(a + 1);
      SPush(env, c1, v)
    case Dec =>
      var (c1, a) :- SPop(env, c);
      var v :- Word(a - 1);
      SPush(env, c1, v)
    case PushR =>
      var (c1, r) :- Next(code, c);
      var v :- GetReg(c1, r);
      SPush(env, c1, v)
    case Push =>
      var (c1, v) :- Next(code, c);
      SPush(env, c1, v)
    case Pop =>
      var (c1, v) :- SPop(env, c);
      var (c2, r) :- Next(code, c1);
      SetReg(c2, r, v)
    case Jz =>
      var (c1, a) :- SPop(env, c);
      JumpIf(code, c1, a == 0, false)
    case RJz =>
      var (c1, a) :- SPop(env, c);
      JumpIf(code, c1, a == 0, true)
    case JNz =>
      var (c1, a) :- SPop(env, c);
      JumpIf(code, c1, a != 0, false)
    case RJNz =>
      var (c1, a) :- SPop(env, c);
      JumpIf(code, c1, a != 0, true)
    case Jmp => JumpIf(code, c, true, false)
    case RJmp => JumpIf(code, c, true, true)
    case Call =>
      var (c1, addr) :- Next(code, c);
      var c2 :- SPush(env, c1, c1.regs[FP]);
      var c3 :- SPush(env, c2, c2.regs[IP]);
      var c4 :- SetReg(c3, FP, c3.regs[SP]);
      var ip :- Word(addr - 1);
      SetReg(c4, IP, ip)
    case Ret =>
      var c1 :- SetReg(c, SP, c.regs[FP]);
      var (c2, ip) :- SPop(env, c1);
      var c3 :- SetReg(c2, IP, ip);
      var (c4, fp) :- SPop(env, c3);
      SetReg(c4, FP, fp)
    case PReg =>
      var (c1, r) :- Next(code, c);
      var v :- GetReg(c1, r);
      Some(c1.(out := c1.out + [v]))
    case PTop =>
      var h := c.regs[SP];
      if h == 0 then Some(Err(c).(out := c.out + [env.junk(c.tick, 0)]))
      else if 0 < h <= |c.mem| then Some(c.(out := c.out + [c.mem[h - 1]]))
      else None
  }

  // carp_vm_eval: IP is incremented before the fetch.
  function Step(env: Env, code: seq<int>, c: Config): Option<Config> {
    var (c1, w) :- Next(code, c);
    var op :- Decode(w);
    Exec(env, code, op, c1)
  }

  predicate On(c: Config) {
    c.regs[RUN] != 0
  }

  // carp_vm_run, for at most n turns.
  function Turns(env: Env, code: seq<int>, c: Config, n: nat): Option<Config> {
    Run((d: Config) => Step(env, code, d), On, c, n)
  }

  // carp_vm_make with a stack of one word, entered at position `main`.
  function Start(main: int): Config {
    Config(seq(NUM_REGS, i => 0)[IP := main - 1][RUN := 1], [0], [], 0)
  }

  // carp_vm_make, with what looking up `main` has found: without it the machine is off, with code 1.
  function Boot(main: Option<int>): Config {
    match main
    case Some(k) => Start(k)
    case None => Config(seq(NUM_REGS, i => 0)[RUN := 0][EXT := 1], [0], [], 0)
  }
}
