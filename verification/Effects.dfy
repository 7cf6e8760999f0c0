/** What every instruction does to the registers, the operand stack and the output, one lemma an
    instruction, on the machine itself and with the number it is encoded by.  IP is where the previous
    instruction left it: one before the opcode.
  */
module Effects {
  import opened Bytecode
  import opened Runs
  import opened Vm

  // The k-th word of the instruction about to run: the opcode is word 0.
  predicate WordIs(code: seq<int>, c: Config, k: nat, w: int) {
    0 <= c.regs[IP] + 1 + k < |code| && code[c.regs[IP] + 1 + k] == w
  }

  // The stack's words, the top last.
  predicate Holds(c: Config, s: seq<int>) {
    c.regs[SP] == |s| && s <= c.mem
  }

  // The registers once n words of the instruction have been fetched.
  function After(c: Config, n: nat): Regs {
    c.regs[IP := c.regs[IP] + n]
  }

  // A defined turn that leaves these registers and this stack, and neither stores nor prints.
  predicate Leaves(env: Env, code: seq<int>, c: Config, regs: Regs, s: seq<int>) {
    var d := Step(env, code, c);
    d.Some? && d.value.regs == regs[SP := |s|] && Holds(d.value, s) && d.value.out == c.out
  }

  // A defined turn that leaves exactly this, and has asked for no memory.
  predicate Ends(env: Env, code: seq<int>, c: Config, regs: Regs, mem: seq<int>, out: seq<int>) {
    var d := Step(env, code, c);
    d.Some? && d.value.regs == regs && d.value.mem == mem && d.value.out == out && d.value.tick == c.tick
  }

  // There is room for one more word, or more memory to be had.
  predicate Room(env: Env, c: Config, h: int) {
    0 <= h <= |c.mem| && (h == |c.mem| ==> env.grants(c.tick))
  }

  // ---------------------------------------------------------------- control and registers

  lemma Halt(env: Env, code: seq<int>, c: Config)
    requires WordIs(code, c, 0, 0)
    ensures Ends(env, code, c, After(c, 1)[RUN := 0][EXT := ToInt(c.regs[EXT])], c.mem, c.out)
  {
  }

  lemma Nop(env: Env, code: seq<int>, c: Config)
    requires WordIs(code, c, 0, 1)
    ensures Ends(env, code, c, After(c, 1), c.mem, c.out)
  {
  }

  lemma LoadR(env: Env, code: seq<int>, c: Config, r: nat, v: int)
    requires WordIs(code, c, 0, 2)
    requires WordIs(code, c, 1, r) && WordIs(code, c, 2, v) && r < TWO_31
    ensures Ends(env, code, c, if r < NUM_REGS then After(c, 3)[r := v] else After(c, 3), c.mem, c.out)
  {
  }

  lemma Mov(env: Env, code: seq<int>, c: Config, dst: nat, src: nat)
    requires WordIs(code, c, 0, 5)
    requires WordIs(code, c, 1, dst) && WordIs(code, c, 2, src) && dst < TWO_31 && src < NUM_REGS
    ensures var r := After(c, 3);
      Ends(env, code, c, if dst < NUM_REGS then r[dst := r[src]] else r, c.mem, c.out)
  {
  }

  lemma IncR(env: Env, code: seq<int>, c: Config, r: nat)
    requires WordIs(code, c, 0, 16)
    requires WordIs(code, c, 1, r) && r < NUM_REGS && InWord(After(c, 2)[r] + 1)
    ensures Ends(env, code, c, After(c, 2)[r := After(c, 2)[r] + 1], c.mem, c.out)
  {
  }

  lemma DecR(env: Env, code: seq<int>, c: Config, r: nat)
    requires WordIs(code, c, 0, 17)
    requires WordIs(code, c, 1, r) && r < NUM_REGS && InWord(After(c, 2)[r] - 1)
    ensures Ends(env, code, c, After(c, 2)[r := After(c, 2)[r] - 1], c.mem, c.out)
  {
  }

  // ---------------------------------------------------------------- the stack

  lemma Pushes(env: Env, c: Config, s: seq<int>, v: int)
    requires Holds(c, s) && Room(env, c, |s|)
    ensures var d := SPush(env, c, v);
      && d.Some? && d.value.regs == c.regs[SP := |s| + 1] && Holds(d.value, s + [v]) && d.value.out == c.out
      && (|s| < |c.mem| ==> |d.value.mem| == |c.mem| && d.value.tick == c.tick)
      && (|s| == |c.mem| ==> |d.value.mem| == 2 * |c.mem| + 1)
  {
  }

  lemma Load(env: Env, code: seq<int>, c: Config, s: seq<int>, rel: int)
    requires WordIs(code, c, 0, 3)
    requires WordIs(code, c, 1, rel) && Holds(c, s) && Room(env, c, |s|) && 0 <= c.regs[FP] + rel < |c.mem|
    ensures Leaves(env, code, c, After(c, 2), s + [c.mem[c.regs[FP] + rel]])
  {
    hide SPush;
    var d := Next(code, Next(code, c).value.0).value.0;
    Pushes(env, d, s, c.mem[c.regs[FP] + rel]);
  }

  lemma Store(env: Env, code: seq<int>, c: Config, rel: int, v: int)
    requires WordIs(code, c, 0, 4)
    requires WordIs(code, c, 1, rel) && WordIs(code, c, 2, v) && 0 <= c.regs[FP] + rel < |c.mem|
    ensures Ends(env, code, c, After(c, 3), c.mem[c.regs[FP] + rel := v], c.out)
  {
  }

  lemma PushR(env: Env, code: seq<int>, c: Config, s: seq<int>, r: nat)
    requires WordIs(code, c, 0, 20)
    requires WordIs(code, c, 1, r) && r < NUM_REGS && Holds(c, s) && Room(env, c, |s|)
    ensures Leaves(env, code, c, After(c, 2), s + [After(c, 2)[r]])
  {
    hide SPush;
    var d := Next(code, Next(code, c).value.0).value.0;
    Pushes(env, d, s, d.regs[r]);
  }

  lemma Push(env: Env, code: seq<int>, c: Config, s: seq<int>, v: int)
    requires WordIs(code, c, 0, 21)
    requires WordIs(code, c, 1, v) && Holds(c, s) && Room(env, c, |s|)
    ensures Leaves(env, code, c, After(c, 2), s + [v])
  {
    hide SPush;
    var d := Next(code, Next(code, c).value.0).value.0;
    Pushes(env, d, s, v);
  }

  lemma Pop(env: Env, code: seq<int>, c: Config, s: seq<int>, x: int, r: nat)
    requires WordIs(code, c, 0, 22)
    requires WordIs(code, c, 1, r) && r < NUM_REGS && Holds(c, s + [x])
    ensures Ends(env, code, c, After(c, 2)[SP := |s|][r := x], c.mem, c.out)
  {
    assert (s + [x])[|s|] == x;
  }

  // ---------------------------------------------------------------- operators

  // The lower operand a and the upper operand b are replaced by the result.
  predicate Yields(env: Env, code: seq<int>, c: Config, s: seq<int>, v: int) {
    Leaves(env, code, c, After(c, 1), s + [v])
  }

  lemma Operates(env: Env, code: seq<int>, c: Config, f: Fun, s: seq<int>, a: int, b: int, v: int)
    requires Peek(code, c).Some? && Decode(Peek(code, c).value) == Some(Bin(f))
    requires Holds(c, s + [a, b]) && Apply(env, f, a, b) == Some(v)
    ensures Yields(env, code, c, s, v)
  {
    hide Decode, Apply;
    assert (s + [a, b])[|s|] == a && (s + [a, b])[|s| + 1] == b;
    assert c.mem[|s| + 1] == b && c.mem[|s|] == a && c.mem[..|s|] == s;
  }

  lemma Add(env: Env, code: seq<int>, c: Config, s: seq<int>, a: int, b: int)
    requires WordIs(code, c, 0, 6)
    requires Holds(c, s + [a, b]) && InWord(a + b)
    ensures Yields(env, code, c, s, a + b)
  {
    Operates(env, code, c, Bytecode.Add, s, a, b, a + b);
  }

  lemma Sub(env: Env, code: seq<int>, c: Config, s: seq<int>, a: int, b: int)
    requires WordIs(code, c, 0, 7)
    requires Holds(c, s + [a, b]) && InWord(a - b)
    ensures Yields(env, code, c, s, a - b)
  {
    Operates(env, code, c, Bytecode.Sub, s, a, b, a - b);
  }

  lemma Mul(env: Env, code: seq<int>, c: Config, s: seq<int>, a: int, b: int)
    requires WordIs(code, c, 0, 8)
    requires Holds(c, s + [a, b]) && InWord(a * b)
    ensures Yields(env, code, c, s, a * b)
  {
    Operates(env, code, c, Bytecode.Mul, s, a, b, a * b);
  }

  lemma Mod(env: Env, code: seq<int>, c: Config, s: seq<int>, a: int, b: int)
    requires WordIs(code, c, 0, 9)
    requires Holds(c, s + [a, b]) && b != 0 && InWord(a) && InWord(b) && !(a == -TWO_63 && b == -1)
    ensures Yields(env, code, c, s, Remainder(a, b))
  {
    Operates(env, code, c, Bytecode.Mod, s, a, b, Remainder(a, b));
  }

  lemma Shr(env: Env, code: seq<int>, c: Config, s: seq<int>, a: int, b: int)
    requires WordIs(code, c, 0, 10)
    requires Holds(c, s + [a, b]) && 0 <= b < 64
    ensures Yields(env, code, c, s, env.bits(Bytecode.Shr, a, b))
  {
    Operates(env, code, c, Bytecode.Shr, s, a, b, env.bits(Bytecode.Shr, a, b));
  }

  lemma Shl(env: Env, code: seq<int>, c: Config, s: seq<int>, a: int, b: int)
    requires WordIs(code, c, 0, 11)
    requires Holds(c, s + [a, b]) && 0 <= b < 64
    ensures Yields(env, code, c, s, env.bits(Bytecode.Shl, a, b))
  {
    Operates(env, code, c, Bytecode.Shl, s, a, b, env.bits(Bytecode.Shl, a, b));
  }

  lemma Xor(env: Env, code: seq<int>, c: Config, s: seq<int>, a: int, b: int)
    requires WordIs(code, c, 0, 13)
    requires Holds(c, s + [a, b])
    ensures Yields(env, code, c, s, env.bits(Bytecode.Xor, a, b))
  {
    Operates(env, code, c, Bytecode.Xor, s, a, b, env.bits(Bytecode.Xor, a, b));
  }

  lemma Or(env: Env, code: seq<int>, c: Config, s: seq<int>, a: int, b: int)
    requires WordIs(code, c, 0, 14)
    requires Holds(c, s + [a, b])
    ensures Yields(env, code, c, s, env.bits(Bytecode.Or, a, b))
  {
    Operates(env, code, c, Bytecode.Or, s, a, b, env.bits(Bytecode.Or, a, b));
  }

  lemma And(env: Env, code: seq<int>, c: Config, s: seq<int>, a: int, b: int)
    requires WordIs(code, c, 0, 15)
    requires Holds(c, s + [a, b])
    ensures Yields(env, code, c, s, env.bits(Bytecode.And, a, b))
  {
    Operates(env, code, c, Bytecode.And, s, a, b, env.bits(Bytecode.And, a, b));
  }

  lemma Cmp(env: Env, code: seq<int>, c: Config, s: seq<int>, a: int, b: int)
    requires WordIs(code, c, 0, 23)
    requires Holds(c, s + [a, b]) && InWord(a - b)
    ensures Yields(env, code, c, s, a - b)
  {
    Operates(env, code, c, Bytecode.Cmp, s, a, b, a - b);
  }

  lemma Lt(env: Env, code: seq<int>, c: Config, s: seq<int>, a: int, b: int)
    requires WordIs(code, c, 0, 24)
    requires Holds(c, s + [a, b])
    ensures Yields(env, code, c, s, if a < b then 1 else 0)
  {
    Operates(env, code, c, Bytecode.Lt, s, a, b, if a < b then 1 else 0);
  }

  lemma Gt(env: Env, code: seq<int>, c: Config, s: seq<int>, a: int, b: int)
    requires WordIs(code, c, 0, 25)
    requires Holds(c, s + [a, b])
    ensures Yields(env, code, c, s, if a > b then 1 else 0)
  {
    Operates(env, code, c, Bytecode.Gt, s, a, b, if a > b then 1 else 0);
  }

  lemma Not(env: Env, code: seq<int>, c: Config, s: seq<int>, x: int)
    requires WordIs(code, c, 0, 12)
    requires Holds(c, s + [x])
    ensures Leaves(env, code, c, After(c, 1), s + [env.invert(x)])
  {
    assert (s + [x])[|s|] == x && c.mem[|s|] == x && c.mem[..|s|] == s;
  }

  lemma Inc(env: Env, code: seq<int>, c: Config, s: seq<int>, x: int)
    requires WordIs(code, c, 0, 18)
    requires Holds(c, s + [x]) && InWord(x + 1)
    ensures Leaves(env, code, c, After(c, 1), s + [x + 1])
  {
    assert (s + [x])[|s|] == x && c.mem[|s|] == x && c.mem[..|s|] == s;
  }

  lemma Dec(env: Env, code: seq<int>, c: Config, s: seq<int>, x: int)
    requires WordIs(code, c, 0, 19)
    requires Holds(c, s + [x]) && InWord(x - 1)
    ensures Leaves(env, code, c, After(c, 1), s + [x - 1])
  {
    assert (s + [x])[|s|] == x && c.mem[|s|] == x && c.mem[..|s|] == s;
  }

  // ---------------------------------------------------------------- jumps

  lemma Jz(env: Env, code: seq<int>, c: Config, s: seq<int>, x: int, w: int)
    requires WordIs(code, c, 0, 26)
    requires WordIs(code, c, 1, w) && Holds(c, s + [x])
    ensures var r := if x == 0 then c.regs[IP := w] else After(c, 2);
      Ends(env, code, c, r[SP := |s|], c.mem, c.out)
  {
    assert (s + [x])[|s|] == x && c.mem[|s|] == x;
  }

  lemma RJz(env: Env, code: seq<int>, c: Config, s: seq<int>, x: int, w: int)
    requires WordIs(code, c, 0, 27)
    requires WordIs(code, c, 1, w) && Holds(c, s + [x]) && InWord(c.regs[IP] + 1 + w)
    ensures var r := if x == 0 then c.regs[IP := c.regs[IP] + 1 + w] else After(c, 2);
      Ends(env, code, c, r[SP := |s|], c.mem, c.out)
  {
    assert (s + [x])[|s|] == x && c.mem[|s|] == x;
  }

  lemma JNz(env: Env, code: seq<int>, c: Config, s: seq<int>, x: int, w: int)
    requires WordIs(code, c, 0, 28)
    requires WordIs(code, c, 1, w) && Holds(c, s + [x])
    ensures var r := if x != 0 then c.regs[IP := w] else After(c, 2);
      Ends(env, code, c, r[SP := |s|], c.mem, c.out)
  {
    assert (s + [x])[|s|] == x && c.mem[|s|] == x;
  }

  lemma RJNz(env: Env, code: seq<int>, c: Config, s: seq<int>, x: int, w: int)
    requires WordIs(code, c, 0, 29)
    requires WordIs(code, c, 1, w) && Holds(c, s + [x]) && InWord(c.regs[IP] + 1 + w)
    ensures var r := if x != 0 then c.regs[IP := c.regs[IP] + 1 + w] else After(c, 2);
      Ends(env, code, c, r[SP := |s|], c.mem, c.out)
  {
    assert (s + [x])[|s|] == x && c.mem[|s|] == x;
  }

  lemma Jmp(env: Env, code: seq<int>, c: Config, w: int)
    requires WordIs(code, c, 0, 30)
    requires WordIs(code, c, 1, w)
    ensures Ends(env, code, c, c.regs[IP := w], c.mem, c.out)
  {
  }

  lemma RJmp(env: Env, code: seq<int>, c: Config, w: int)
    requires WordIs(code, c, 0, 31)
    requires WordIs(code, c, 1, w) && InWord(c.regs[IP] + 1 + w)
    ensures Ends(env, code, c, c.regs[IP := c.regs[IP] + 1 + w], c.mem, c.out)
  {
  }

  // ---------------------------------------------------------------- calls

  lemma Call(env: Env, code: seq<int>, c: Config, s: seq<int>, addr: int)
    requires WordIs(code, c, 0, 32)
    requires WordIs(code, c, 1, addr) && Holds(c, s) && InWord(addr - 1)
    requires |s| + 2 <= |c.mem| || (|s| <= |c.mem| && 0 < |c.mem| && env.grants(c.tick))
    ensures Leaves(env, code, c, c.regs[FP := |s| + 2][IP := addr - 1], s + [c.regs[FP], c.regs[IP] + 2])
  {
    hide SPush;
    var d := Next(code, Next(code, c).value.0).value.0;
    Pushes(env, d, s, c.regs[FP]);
    Pushes(env, SPush(env, d, c.regs[FP]).value, s + [c.regs[FP]], c.regs[IP] + 2);
    assert s + [c.regs[FP]] + [c.regs[IP] + 2] == s + [c.regs[FP], c.regs[IP] + 2];
  }

  lemma Ret(env: Env, code: seq<int>, c: Config, s: seq<int>, fp: int, ip: int, t: seq<int>)
    requires WordIs(code, c, 0, 33)
    requires Holds(c, s + [fp, ip] + t) && c.regs[FP] == |s| + 2
    ensures Ends(env, code, c, c.regs[IP := ip][FP := fp][SP := |s|], c.mem, c.out)
  {
    assert (s + [fp, ip] + t)[|s|] == fp && (s + [fp, ip] + t)[|s| + 1] == ip;
    assert c.mem[|s|] == fp && c.mem[|s| + 1] == ip;
  }

  // ---------------------------------------------------------------- output

  lemma PReg(env: Env, code: seq<int>, c: Config, r: nat)
    requires WordIs(code, c, 0, 34)
    requires WordIs(code, c, 1, r) && r < NUM_REGS
    ensures Ends(env, code, c, After(c, 2), c.mem, c.out + [After(c, 2)[r]])
  {
  }

  lemma PTop(env: Env, code: seq<int>, c: Config, s: seq<int>, x: int)
    requires WordIs(code, c, 0, 35)
    requires Holds(c, s + [x])
    ensures Ends(env, code, c, After(c, 1), c.mem, c.out + [x])
  {
    assert (s + [x])[|s|] == x && c.mem[|s|] == x;
  }
}
