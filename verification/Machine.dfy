/** The machine of src/machine.c and src/instructions.c as an object: a register file, a stack whose
    height is register SP, and code.  Every method does to the object what the function of the same
    purpose in `Vm` says, so what is proved about runs of that function holds of the object.
  */
module Machines {
  import opened Bytecode
  import opened Vm
  import opened Runs
  import opened Stacks

  class Machine {
    const env: Env
    const code: seq<int>
    const regs: array<int>
    const stack: Stack
    ghost var out: seq<int>
    var tick: nat

    // carp_vm_make, with the position of the label `main`, if there is one.
    constructor Make(env: Env, code: seq<int>, main: Option<int>)
      ensures Valid() && this.env == env && this.code == code
      ensures Snap() == Boot(main)
      ensures fresh(regs) && fresh(stack) && fresh(stack.contents)
    {
      var file := new int[NUM_REGS](i => 0);
      match main {
        case Some(k) => file[IP], file[RUN] := k - 1, 1;
        case None => file[RUN], file[EXT] := 0, 1;
      }
      var height := new Stack(file, SP, 1);
      this.env, this.code, regs, stack, out, tick := env, code, file, height, [], 0;
    }

    ghost predicate Valid()
      reads this, regs, stack, stack.cell, stack.contents
    {
      && regs.Length == NUM_REGS && stack.cell == regs && stack.at == SP && stack.Valid()
    }

    ghost function Snap(): Config
      requires Valid()
      reads this, regs, stack, stack.cell, stack.contents
    {
      Config(regs[..], stack.contents[..], out, tick)
    }

    // What every method keeps: only the stack's buffer may be replaced, by a new one.
    twostate predicate Keeps()
      reads this, regs, stack, stack.cell, stack.contents
    {
      Valid() && (stack.contents == old(stack.contents) || fresh(stack.contents))
    }

    // ---------------------------------------------------------------- registers

    // Past the end there is no such register.
    method RegGet(r: int) returns (v: Option<int>)
      requires Valid() && RegWord(r)
      ensures v == GetReg(Snap(), r)
    {
      return if r >= NUM_REGS then None else Some(regs[r]);
    }

    method RegSet(r: int, v: int) returns (failed: bool)
      requires Valid() && SetReg(Snap(), r, v).Some?
      modifies regs
      ensures Valid() && SetReg(old(Snap()), r, v) == Some(Snap())
      ensures failed <==> r >= NUM_REGS
    {
      if r >= NUM_REGS {
        return true;
      }
      regs[r] := v;
      return false;
    }

    method RegAdd(r: int, v: int) returns (failed: bool)
      requires Valid() && AddReg(Snap(), r, v).Some?
      modifies regs
      ensures Valid() && AddReg(old(Snap()), r, v) == Some(Snap())
      ensures failed <==> r >= NUM_REGS
    {
      if r >= NUM_REGS {
        return true;
      }
      regs[r] := regs[r] + v;
      return false;
    }

    method SwitchOff(status: int)
      requires Valid()
      modifies regs
      ensures Valid() && Snap() == Exit(old(Snap()), status)
    {
      regs[RUN] := 0;
      regs[EXT] := ToInt(status);
    }

    method Error()
      requires Valid()
      modifies regs, this`tick
      ensures Valid() && Snap() == Err(old(Snap()))
    {
      SwitchOff(1);
      tick := tick + 1;
    }

    // ---------------------------------------------------------------- operands and operand stack

    method NextWord() returns (w: int)
      requires Valid() && Next(code, Snap()).Some?
      modifies regs
      ensures Valid() && Next(code, old(Snap())) == Some((Snap(), w))
    {
      regs[IP] := regs[IP] + 1;
      return code[regs[IP]];
    }

    // The C code leaves the variable uninitialised when the stack is empty.
    method StackPop() returns (v: int)
      requires Valid() && SPop(env, Snap()).Some?
      modifies regs, this`tick
      ensures Valid() && SPop(env, old(Snap())) == Some((Snap(), v))
    {
      var failed;
      failed, v := stack.Pop();
      if failed {
        v := env.junk(tick, 0);
        Error();
      }
    }

    method StackPush(v: int)
      requires Valid() && SPush(env, Snap(), v).Some?
      modifies regs, stack, stack.contents, this`tick
      ensures Keeps() && SPush(env, old(Snap()), v) == Some(Snap())
    {
      ghost var c := Snap();
      var full := stack.Full();
      var t := tick;
      var junk := (i: nat) => env.junk(t, i);
      assert full ==> Room(c.mem, c.regs[SP], junk) == Grown(env, c);
      var failed := stack.Push(v, env.grants(t), junk);
      if failed {
        Error();
      } else if full {
        tick := tick + 1;
      }
    }

    // ---------------------------------------------------------------- instructions

    ghost predicate Can(op: Op)
      reads this, regs, stack, stack.cell, stack.contents
    {
      Valid() && Exec(env, code, op, Snap()).Some?
    }

    twostate predicate Did(op: Op)
      requires old(Valid())
      reads this, regs, stack, stack.cell, stack.contents
    {
      Keeps() && Exec(env, code, op, old(Snap())) == Some(Snap())
    }

    method InstrHalt()
      requires Can(Halt)
      modifies regs
      ensures Did(Halt)
    {
      SwitchOff(regs[EXT]);
    }

    method InstrLoadR()
      requires Can(LoadR)
      modifies regs
      ensures Did(LoadR)
    {
      var r := NextWord();
      var v := NextWord();
      var _ := RegSet(r, v);
    }

    method InstrLoad()
      requires Can(Load)
      modifies regs, stack, stack.contents, this`tick
      ensures Did(Load)
    {
      var rel := NextWord();
      var v := stack.contents[regs[FP] + rel];
      StackPush(v);
    }

    method InstrStore()
      requires Can(Store)
      modifies regs, stack.contents
      ensures Did(Store)
    {
      var rel := NextWord();
      var v := NextWord();
      stack.contents[regs[FP] + rel] := v;
    }

    method InstrMov()
      requires Can(Mov)
      modifies regs
      ensures Did(Mov)
    {
      var dst := NextWord();
      var src := NextWord();
      var _ := RegSet(dst, regs[src]);
    }

    // carp_instructions_binop; `cmp` is written out in C but does the same with a subtraction.
    method InstrBin(f: Fun)
      requires Can(Bin(f))
      modifies regs, stack, stack.contents, this`tick
      ensures Did(Bin(f))
    {
      var b := StackPop();
      var a := StackPop();
      StackPush(Apply(env, f, a, b).value);
    }

    method InstrNot()
      requires Can(Not)
      modifies regs, stack, stack.contents, this`tick
      ensures Did(Not)
    {
      var a := StackPop();
      StackPush(env.invert(a));
    }

    method InstrIncR()
      requires Can(IncR)
      modifies regs
      ensures Did(IncR)
    {
      var r := NextWord();
      var _ := RegAdd(r, 1);
    }

    method InstrDecR()
      requires Can(DecR)
      modifies regs
      ensures Did(DecR)
    {
      var r := NextWord();
      var _ := RegAdd(r, -1);
    }

    method InstrInc()
      requires Can(Inc)
      modifies regs, stack, stack.contents, this`tick
      ensures Did(Inc)
    {
      var a := StackPop();
      StackPush(a + 1);
    }

    method InstrDec()
      requires Can(Dec)
      modifies regs, stack, stack.contents, this`tick
      ensures Did(Dec)
    {
      var a := StackPop();
      StackPush(a - 1);
    }

    method InstrPushR()
      requires Can(PushR)
      modifies regs, stack, stack.contents, this`tick
      ensures Did(PushR)
    {
      var r := NextWord();
      var v := RegGet(r);
      StackPush(v.value);
    }

    method InstrPush()
      requires Can(Push)
      modifies regs, stack, stack.contents, this`tick
      ensures Did(Push)
    {
      var v := NextWord();
      StackPush(v);
    }

    method InstrPop()
      requires Can(Pop)
      modifies regs, this`tick
      ensures Did(Pop)
    {
      var v := StackPop();
      var r := NextWord();
      var _ := RegSet(r, v);
    }

    // What the six jumps have in common.
    method Jump(taken: bool, relative: bool)
      requires Valid() && JumpIf(code, Snap(), taken, relative).Some?
      modifies regs
      ensures Valid() && JumpIf(code, old(Snap()), taken, relative) == Some(Snap())
    {
      if taken && relative {
        var _ := RegAdd(IP, code[regs[IP] + 1]);
      } else {
        var w := NextWord();
        if taken {
          var _ := RegSet(IP, w);
        }
      }
    }

    method InstrJump(op: Op)
      requires (op == Jmp || op == RJmp) && Can(op)
      modifies regs
      ensures Did(op)
    {
      Jump(true, op == RJmp);
    }

    method InstrBranch(op: Op)
      requires (op == Jz || op == RJz || op == JNz || op == RJNz) && Can(op)
      modifies regs, this`tick
      ensures Did(op)
    {
      var a := StackPop();
      Jump((a == 0) == (op == Jz || op == RJz), op == RJz || op == RJNz);
    }

    method InstrCall()
      requires Can(Call)
      modifies regs, stack, stack.contents, this`tick
      ensures Did(Call)
    {
      var addr := NextWord();
      StackPush(regs[FP]);
      StackPush(regs[IP]);
      var _ := RegSet(FP, regs[SP]);
      var _ := RegSet(IP, addr - 1);
    }

    method InstrRet()
      requires Can(Ret)
      modifies regs, this`tick
      ensures Did(Ret)
    {
      var _ := RegSet(SP, regs[FP]);
      var ip := StackPop();
      var _ := RegSet(IP, ip);
      var fp := StackPop();
      var _ := RegSet(FP, fp);
    }

    method InstrPReg()
      requires Can(PReg)
      modifies regs, this`out
      ensures Did(PReg)
    {
      var r := NextWord();
      var v := RegGet(r);
      out := out + [v.value];
    }

    method InstrPTop()
      requires Can(PTop)
      modifies regs, this`tick, this`out
      ensures Did(PTop)
    {
      var failed, v := stack.Peek();
      if failed {
        v := env.junk(tick, 0);
        Error();
      }
      out := out + [v];
    }

    // ---------------------------------------------------------------- fetch, decode, execute

    method Execute(op: Op)
      requires Can(op)
      modifies regs, stack, stack.contents, this`tick, this`out
      ensures Did(op)
    {
      hide Exec, Decode;
      match op {
        case Halt => InstrHalt();
        case Nop => NopIsNothing(env, code, Snap());
        case LoadR => InstrLoadR();
        case Load => InstrLoad();
        case Store => InstrStore();
        case Mov => InstrMov();
        case Bin(f) => InstrBin(f);
        case Not => InstrNot();
        case IncR => InstrIncR();
        case DecR => InstrDecR();
        case Inc => InstrInc();
        case Dec => InstrDec();
        case PushR => InstrPushR();
        case Push => InstrPush();
        case Pop => InstrPop();
        case Jz => InstrBranch(op);
        case RJz => InstrBranch(op);
        case JNz => InstrBranch(op);
        case RJNz => InstrBranch(op);
        case Jmp => InstrJump(op);
        case RJmp => InstrJump(op);
        case Call => InstrCall();
        case Ret => InstrRet();
        case PReg => InstrPReg();
        case PTop => InstrPTop();
      }
    }

    // carp_vm_eval: one turn of the machine is one step of the specification.
    method Eval()
      requires Valid() && Step(env, code, Snap()).Some?
      modifies regs, stack, stack.contents, this`tick, this`out
      ensures Keeps() && Step(env, code, old(Snap())) == Some(Snap())
    {
      hide Exec, Decode;
      var w := NextWord();
      var op := Decode(w).value;
      Execute(op);
    }

    /** carp_vm_run, for a run that the specification says ends: after at most n turns the object is
        in the state the specification's run ends in, and the exit code is that of register ext. */
    method Loop(ghost n: nat) returns (ext: int)
      requires Valid() && Turns(env, code, Snap(), n).Some? && !On(Turns(env, code, Snap(), n).value)
      modifies regs, stack, stack.contents, this`tick, this`out
      ensures Keeps() && Turns(env, code, old(Snap()), n) == Some(Snap()) && ext == Snap().regs[EXT]
    {
      hide Step;
      ghost var c, k := Snap(), n;
      while regs[RUN] != 0
        invariant Keeps()
        invariant Turns(env, code, Snap(), k) == Turns(env, code, c, n)
        decreases k
      {
        TurnOne(env, code, Snap(), k);
        Eval();
        k := k - 1;
      }
      return regs[EXT];
    }
  }

  lemma NopIsNothing(env: Env, code: seq<int>, c: Config)
    ensures Exec(env, code, Nop, c) == Some(c)
  {
  }

  lemma TurnOne(env: Env, code: seq<int>, c: Config, k: nat)
    requires On(c) && Turns(env, code, c, k).Some? && !On(Turns(env, code, c, k).value)
    ensures k > 0 && Step(env, code, c).Some?
    ensures Turns(env, code, c, k) == Turns(env, code, Step(env, code, c).value, k - 1)
  {
    hide Step;
  }
}
