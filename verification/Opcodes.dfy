/** The three tables that number the instructions agree, the two that number the registers agree, and
    the arithmetic instructions compute what their names say.
  */
module Opcodes {
  import opened Bytecode
  import opened Assembler

  function Mnemonic(op: Op): string {
    match op
    case Halt => "halt"
    case Nop => "nop"
    case LoadR => "loadr"
    case Load => "load"
    case Store => "store"
    case Mov => "mov"
    case Bin(f) => OperatorName(f)
    case Not => "not"
    case IncR => "incr"
    case DecR => "decr"
    case Inc => "inc"
    case Dec => "dec"
    case PushR => "pushr"
    case Push => "push"
    case Pop => "pop"
    case Jz => "jz"
    case RJz => "rjz"
    case JNz => "jnz"
    case RJNz => "rjnz"
    case Jmp => "jmp"
    case RJmp => "rjmp"
    case Call => "call"
    case Ret => "ret"
    case PReg => "preg"
    case PTop => "ptop"
  }

  function OperatorName(f: Fun): string {
    match f
    case Add => "add"
    case Sub => "sub"
    case Mul => "mul"
    case Mod => "mod"
    case Shr => "shr"
    case Shl => "shl"
    case Xor => "xor"
    case Or => "or"
    case And => "and"
    case Cmp => "cmp"
    case Lt => "lt"
    case Gt => "gt"
  }

  lemma OpcodesAgree0(w: int)
    requires 0 <= w < 9
    ensures Decode(w).Some? && Mnemonic(Decode(w).value) == INSTR_NAMES[w]
  {
  }

  lemma OpcodesAgree1(w: int)
    requires 9 <= w < 18
    ensures Decode(w).Some? && Mnemonic(Decode(w).value) == INSTR_NAMES[w]
  {
  }

  lemma OpcodesAgree2(w: int)
    requires 18 <= w < 27
    ensures Decode(w).Some? && Mnemonic(Decode(w).value) == INSTR_NAMES[w]
  {
  }

  lemma OpcodesAgree3(w: int)
    requires 27 <= w < 36
    ensures Decode(w).Some? && Mnemonic(Decode(w).value) == INSTR_NAMES[w]
  {
  }

  // The number the assembler gives a mnemonic is the number the machine decodes to that instruction.
  lemma OpcodesAgree(w: int)
    ensures Decode(w).Some? <==> 0 <= w < |INSTR_NAMES|
    ensures Decode(w).Some? ==> Mnemonic(Decode(w).value) == INSTR_NAMES[w]
  {
    hide Mnemonic, OperatorName;
    if 0 <= w < 9 {
      OpcodesAgree0(w);
    } else if 9 <= w < 18 {
      OpcodesAgree1(w);
    } else if 18 <= w < 27 {
      OpcodesAgree2(w);
    } else if 27 <= w < 36 {
      OpcodesAgree3(w);
    }
  }

  // Every register has the number its name is assembled to.
  lemma RegistersAgree()
    ensures |REG_NAMES| == NUM_REGS
    ensures REG_NAMES[R0] == "r0" && REG_NAMES[R1] == "r1" && REG_NAMES[R2] == "r2" && REG_NAMES[3] == "r3"
    ensures REG_NAMES[4] == "r4" && REG_NAMES[5] == "r5" && REG_NAMES[6] == "r6" && REG_NAMES[7] == "r7"
    ensures REG_NAMES[8] == "r8" && REG_NAMES[9] == "r9" && REG_NAMES[AX] == "ax" && REG_NAMES[11] == "bx"
    ensures REG_NAMES[12] == "cx" && REG_NAMES[13] == "dx" && REG_NAMES[14] == "rx" && REG_NAMES[IP] == "ip"
    ensures REG_NAMES[SP] == "sp" && REG_NAMES[FP] == "fp" && REG_NAMES[18] == "gbg"
    ensures REG_NAMES[RUN] == "run" && REG_NAMES[EXT] == "ext"
  {
  }

  function Abs(x: int): nat {
    if x < 0 then -x else x
  }

  // r has a's sign, or is zero, and is smaller than b in size.
  predicate RemainderLike(a: int, b: int, r: int) {
    Abs(r) < Abs(b) && (r == 0 || (r > 0 <==> a > 0))
  }

  /** C's remainder: what is left after a multiple of b, smaller than b in size, with a's sign; and
      only one number is that. */
  lemma RemainderIs(a: int, b: int, r: int)
    requires b != 0
    ensures r == Remainder(a, b) <==> (exists q :: a == b * q + r) && RemainderLike(a, b, r)
  {
    var q := Quotient(a, b);
    if (exists p :: a == b * p + r) && RemainderLike(a, b, r) {
      var p :| a == b * p + r;
      Unique(a, b, p, r, q, Remainder(a, b));
    }
  }

  lemma Quotient(a: int, b: int) returns (q: int)
    requires b != 0
    ensures a == b * q + Remainder(a, b) && RemainderLike(a, b, Remainder(a, b))
  {
    var k: int, rest: int := Divide(Abs(a), Abs(b));
    q := if (a < 0) == (b < 0) then k else -k;
    assert Remainder(a, b) == if a < 0 then -rest else rest;
    hide Remainder;
    Signs(a, b, k, rest);
  }

  lemma Divide(n: nat, m: nat) returns (k: nat, rest: nat)
    requires m > 0
    ensures n == m * k + rest && rest == n % m && rest < m && (n == 0 ==> rest == 0)
  {
    k, rest := n / m, n % m;
  }

  lemma Signs(a: int, b: int, k: int, rest: int)
    requires b != 0 && Abs(a) == Abs(b) * k + rest
    ensures var q := if (a < 0) == (b < 0) then k else -k;
      a == b * q + (if a < 0 then -rest else rest)
  {
  }

  lemma Unique(a: int, b: int, p: int, r: int, q: int, s: int)
    requires b != 0 && a == b * p + r && a == b * q + s
    requires RemainderLike(a, b, r) && RemainderLike(a, b, s)
    ensures r == s
  {
    assert r - s == b * (q - p) by { assert b * (q - p) == b * q - b * p; }
    SmallMultiple(b, q - p, r - s);
  }

  lemma Grows(m: int, j: int)
    requires m > 0 && j >= 1
    ensures m * j >= m
  {
    assert m * j == m * (j - 1) + m && m * (j - 1) >= 0;
  }

  lemma AbsProduct(b: int, j: int)
    ensures Abs(b * j) == Abs(b) * Abs(j)
  {
    if b < 0 { assert b * j == -(-b * j); }
    if j < 0 { assert b * j == -(b * -j); }
    if b >= 0 && j >= 0 {
      assert b * j >= 0;
    }
    if b < 0 && j < 0 {
      assert b * j == -b * -j && -b * -j >= 0;
    }
  }

  lemma SmallMultiple(b: int, j: int, x: int)
    requires b != 0 && x == b * j && Abs(x) < Abs(b)
    ensures j == 0 && x == 0
  {
    AbsProduct(b, j);
    if j != 0 {
      Grows(Abs(b), Abs(j));
    }
  }

  /** `a` is the lower operand and `b` the upper one.  Comparison by subtraction and the two order
      tests tell the same story; addition and subtraction undo each other. */
  lemma OperatorsMean(env: Env, a: int, b: int)
    requires InWord(a) && InWord(b)
    ensures Apply(env, Lt, a, b) == Some(if a < b then 1 else 0)
    ensures Apply(env, Gt, a, b) == Apply(env, Lt, b, a)
    ensures Apply(env, Cmp, a, b).Some? ==>
              && (Apply(env, Cmp, a, b).value == 0 <==> a == b)
              && (Apply(env, Cmp, a, b).value < 0 <==> Apply(env, Lt, a, b) == Some(1))
    ensures Apply(env, Add, a, b).Some? ==> Apply(env, Sub, Apply(env, Add, a, b).value, b) == Some(a)
    ensures Apply(env, Sub, a, b).Some? ==> Apply(env, Add, Apply(env, Sub, a, b).value, b) == Some(a)
    ensures Apply(env, Mul, a, b) == Word(a * b)
    ensures b != 0 && !(a == -TWO_63 && b == -1) ==> Apply(env, Mod, a, b) == Some(Remainder(a, b))
  {
  }

  /** `cmp` pushes the difference, as `sub` does: the number that added to the upper operand gives the
      lower one. */
  lemma CmpIsDifference(env: Env, a: int, b: int)
    ensures Apply(env, Cmp, a, b) == Apply(env, Sub, a, b)
    ensures Apply(env, Cmp, a, b).Some? <==> InWord(a - b)
    ensures Apply(env, Cmp, a, b).Some? ==> Apply(env, Cmp, a, b).value + b == a
  {
  }

  // The only int that differs from x by a multiple of 2^32.
  lemma ToIntIs(x: int, r: int)
    ensures r == ToInt(x) <==> -TWO_31 <= r < TWO_31 && (x - r) % TWO_32 == 0
  {
  }
}
