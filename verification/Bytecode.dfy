/** Words, registers and opcodes of the virtual machine. */
module Bytecode {

  datatype Option<+T> = None | Some(value: T) {
    predicate IsFailure() {
      None?
    }
    function PropagateFailure<U>(): Option<U>
      requires None?
    {
      None
    }
    function Extract(): T
      requires Some?
    {
      value
    }
  }

  // src/carp/registers.h
  const R0 := 0
  const R1 := 1
  const R2 := 2
  const AX := 10
  const IP := 15
  const SP := 16
  const FP := 17
  const RUN := 19
  const EXT := 20
  const NUM_REGS := 21

  // The registers that hold the machine together; the others are the program's own.
  predicate Reserved(r: int) {
    r == IP || r == SP || r == FP || r == RUN || r == EXT
  }

  const TWO_31 := 0x8000_0000
  const TWO_32 := 0x1_0000_0000
  const TWO_63 := 0x8000_0000_0000_0000

  // A value an int64_t can hold; C leaves arithmetic that goes beyond it undefined.
  predicate InWord(x: int) {
    -TWO_63 <= x < TWO_63
  }

  function Word(x: int): Option<int> {
    if InWord(x) then Some(x) else None
  }

  // The conversion of an int64_t to an int.
  function ToInt(x: int): int {
    (x + TWO_31) % TWO_32 - TWO_31
  }

  // C's % truncates: the result takes the sign of the dividend.
  function Remainder(a: int, b: int): int
    requires b != 0
  {
    var m := if b < 0 then -b else b;
    if a >= 0 then a % m else -((-a) % m)
  }

  datatype Fun = Add | Sub | Mul | Mod | Shr | Shl | Xor | Or | And | Cmp | Lt | Gt

  datatype Op =
    | Halt | Nop | LoadR | Load | Store | Mov | Bin(f: Fun) | Not
    | IncR | DecR | Inc | Dec | PushR | Push | Pop
    | Jz | RJz | JNz | RJNz | Jmp | RJmp | Call | Ret | PReg | PTop

  // src/carp/instructions.h numbers the opcodes; src/machine.c maps the numbers to functions.
  function Decode(w: int): Option<Op> {
    if w == 0 then Some(Halt)
    else if w == 1 then Some(Nop)
    else if w == 2 then Some(LoadR)
    else if w == 3 then Some(Load)
    else if w == 4 then Some(Store)
    else if w == 5 then Some(Mov)
    else if w == 6 then Some(Bin(Add))
    else if w == 7 then Some(Bin(Sub))
    else if w == 8 then Some(Bin(Mul))
    else if w == 9 then Some(Bin(Mod))
    else if w == 10 then Some(Bin(Shr))
    else if w == 11 then Some(Bin(Shl))
    else if w == 12 then Some(Not)
    else if w == 13 then Some(Bin(Xor))
    else if w == 14 then Some(Bin(Or))
    else if w == 15 then Some(Bin(And))
    else if w == 16 then Some(IncR)
    else if w == 17 then Some(DecR)
    else if w == 18 then Some(Inc)
    else if w == 19 then Some(Dec)
    else if w == 20 then Some(PushR)
    else if w == 21 then Some(Push)
    else if w == 22 then Some(Pop)
    else if w == 23 then Some(Bin(Cmp))
    else if w == 24 then Some(Bin(Lt))
    else if w == 25 then Some(Bin(Gt))
    else if w == 26 then Some(Jz)
    else if w == 27 then Some(RJz)
    else if w == 28 then Some(JNz)
    else if w == 29 then Some(RJNz)
    else if w == 30 then Some(Jmp)
    else if w == 31 then Some(RJmp)
    else if w == 32 then Some(Call)
    else if w == 33 then Some(Ret)
    else if w == 34 then Some(PReg)
    else if w == 35 then Some(PTop)
    else None
  }

  /** What the program text does not decide: whether the k-th request for memory is granted, what an
      uninitialised word holds, and the bit-level operators, which are kept abstract. */
  datatype Env = Env(grants: nat -> bool,
                     junk: (nat, nat) -> int,
                     bits: (Fun, int, int) -> int,
                     invert: int -> int)

  function Apply(env: Env, f: Fun, a: int, b: int): Option<int> {
    match f
    case Add => Word(a + b)
    case Sub => Word(a - b)
    case Mul => Word(a * b)
    case Mod => if b == 0 || (a == -TWO_63 && b == -1) then None else Some(Remainder(a, b))
    case Cmp => Word(a - b)
    case Lt => Some(if a < b then 1 else 0)
    case Gt => Some(if a > b then 1 else 0)
    case Shr => if 0 <= b < 64 then Some(env.bits(f, a, b)) else None
    case Shl => if 0 <= b < 64 then Some(env.bits(f, a, b)) else None
    case Xor => Some(env.bits(f, a, b))
    case Or => Some(env.bits(f, a, b))
    case And => Some(env.bits(f, a, b))
  }
}
