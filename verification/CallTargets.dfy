/** Where assembled calls and the start-up of the machine lead. */
module CallTargets {
  import opened Bytecode
  import opened Tables
  import opened Assembler
  import opened Vm

  // An executed CALL leaves IP one before its operand's value.
  lemma CallJumps(env: Env, code: seq<int>, c: Config, d: Config)
    requires Peek(code, c) == Some(32) && Step(env, code, c) == Some(d)
    ensures 0 <= c.regs[IP] + 2 < |code| && d.regs[IP] == code[c.regs[IP] + 2] - 1
  {
  }

  /** A `call f` that runs at position i - 1 of an assembled text: the next word fetched is the NOP
      that stands for the label f, which is defined before the call. */
  lemma CallFetchesLabel(env: Env, xs: seq<Lexeme>, junk: nat -> int, mended: bool, i: nat, c: Config, d: Config)
    requires Plain(xs) && (mended || LabelsFit(xs)) && Values(xs, junk, mended).Some?
    requires i < |xs| && xs[i].kind == Func && c.regs[IP] + 2 == i
    requires var code := LoadedPart(Values(xs, junk, mended).value);
      Peek(code, c) == Some(32) && Step(env, code, c) == Some(d)
    ensures var code, k := LoadedPart(Values(xs, junk, mended).value), d.regs[IP] + 1;
      0 <= k < i && xs[k] == Lexeme(xs[i].text, Lbl) && Peek(code, d) == Some(1)
  {
    hide Step, Values, LabelsFit;
    CallJumps(env, LoadedPart(Values(xs, junk, mended).value), c, d);
    CallTarget(xs, junk, mended, i);
  }

  lemma StartPeeks(code: seq<int>, k: int)
    requires 0 <= k
    ensures Peek(code, Start(k)) == if k < |code| then Some(code[k]) else None
  {
  }

  /** carp_vm_make looks `main` up and starts one before it: the first word fetched is its NOP,
      except when `main:` is the last word of the text, which is not loaded. */
  lemma StartFetchesMain(xs: seq<Lexeme>, junk: nat -> int, mended: bool)
    requires Plain(xs) && (mended || LabelsFit(xs))
    requires Values(xs, junk, mended).Some? && Get(Labels(xs, mended), "main").Some?
    ensures var code, k := LoadedPart(Values(xs, junk, mended).value), Get(Labels(xs, mended), "main").value;
      0 <= k < |xs| && xs[k] == Lexeme("main", Lbl)
      && Peek(code, Start(k)) == if k + 1 < |xs| then Some(1) else None
  {
    hide Labels, Values, LabelsFit, Get, Start, Peek;
    LabelFound(xs, junk, mended, "main");
    StartPeeks(LoadedPart(Values(xs, junk, mended).value), Get(Labels(xs, mended), "main").value);
  }
}
