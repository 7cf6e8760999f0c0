/** Which class the tokenizer puts a word in, said of the word alone: the order of the tests matters only
    where a word follows `call`, and between labels and variables.
  */
module WordClasses {
  import opened Assembler
  import opened Tokenizer
  import opened Decimals

  lemma IsIn(w: string)
    ensures IsReg(w) <==> w in REG_NAMES
    ensures IsInstr(w) <==> w in INSTR_NAMES
  {
    IndexIs(REG_NAMES, w, 0);
    IndexIs(INSTR_NAMES, w, 0);
  }

  // No number, and without a colon or a dollar sign.
  predicate IsName(w: string) {
    !IsNum(w) && ':' !in w && '$' !in w
  }

  lemma RegistersAreNames()
    ensures forall i :: 0 <= i < |REG_NAMES| ==> IsName(REG_NAMES[i])
  {
    hide IsName;
    forall i | 0 <= i < |REG_NAMES| ensures IsName(REG_NAMES[i]) {
      if i < 11 { RegisterIsName0(i); } else { RegisterIsName1(i); }
    }
  }

  lemma RegisterIsName0(i: int)
    requires 0 <= i < 11
    ensures IsName(REG_NAMES[i])
  {
  }

  lemma RegisterIsName1(i: int)
    requires 11 <= i < 21
    ensures IsName(REG_NAMES[i])
  {
  }

  lemma MnemonicIsName0(i: int)
    requires 0 <= i < 12
    ensures IsName(INSTR_NAMES[i]) && INSTR_NAMES[i] !in REG_NAMES
  {
  }

  lemma MnemonicIsName1(i: int)
    requires 12 <= i < 24
    ensures IsName(INSTR_NAMES[i]) && INSTR_NAMES[i] !in REG_NAMES
  {
  }

  lemma MnemonicIsName2(i: int)
    requires 24 <= i < 30
    ensures IsName(INSTR_NAMES[i]) && INSTR_NAMES[i] !in REG_NAMES
  {
  }

  lemma MnemonicIsName3(i: int)
    requires 30 <= i < 36
    ensures IsName(INSTR_NAMES[i]) && INSTR_NAMES[i] !in REG_NAMES
  {
  }

  lemma MnemonicsAreNames()
    ensures forall i :: 0 <= i < |INSTR_NAMES| ==> IsName(INSTR_NAMES[i]) && INSTR_NAMES[i] !in REG_NAMES
  {
    hide IsName;
    forall i | 0 <= i < |INSTR_NAMES| ensures IsName(INSTR_NAMES[i]) && INSTR_NAMES[i] !in REG_NAMES {
      if i < 12 {
        MnemonicIsName0(i);
      } else if i < 24 {
        MnemonicIsName1(i);
      } else if i < 30 {
        MnemonicIsName2(i);
      } else {
        MnemonicIsName3(i);
      }
    }
  }

  lemma NumbersAreNoNames(w: string)
    requires IsNum(w)
    ensures ':' !in w && '$' !in w
  {
  }

  /** A word is a number, a register or a label by itself; any other word after `call` names a function;
      elsewhere it is a variable or an instruction, or unknown. */
  lemma ClassifyIs(w: string, called: bool)
    ensures Classify(w, called) == Num <==> IsNum(w)
    ensures Classify(w, called) == Reg <==> w in REG_NAMES
    ensures Classify(w, called) == Lbl <==> ':' in w
    ensures Classify(w, called) == Func <==> called && !IsNum(w) && w !in REG_NAMES && ':' !in w
    ensures Classify(w, called) == Var <==> !called && '$' in w && ':' !in w
    ensures Classify(w, called) == Instr <==> !called && w in INSTR_NAMES
  {
    hide IsNum, IsReg, IsInstr;
    IsIn(w);
    RegistersAreNames();
    MnemonicsAreNames();
    if IsNum(w) { NumbersAreNoNames(w); }
  }
}
