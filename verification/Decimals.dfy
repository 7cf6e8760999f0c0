/** Numbers in texts: which words are numbers, and which number each of them is. */
module Decimals {
  import opened Assembler
  import opened Tokenizer

  const DIGITS: string := "0123456789"

  // n in decimal, without leading zeros.
  function Unsigned(n: nat): (s: string)
    ensures s != []
  {
    if n < 10 then [DIGITS[n]] else Unsigned(n / 10) + [DIGITS[n % 10]]
  }

  function Spelling(n: int): string {
    if n < 0 then "-" + Unsigned(-n) else Unsigned(n)
  }

  lemma DigitIs(c: char)
    ensures IsDigit(c) <==> c in DIGITS
    ensures forall k :: 0 <= k < 10 ==> DIGITS[k] as int == '0' as int + k
  {
    if IsDigit(c) {
      var k := c as int - '0' as int;
      assert DIGITS[k] as int == '0' as int + k;
      assert c == DIGITS[k];
    }
  }

  /** is_num: an optional sign, then digits, of which there must be one if there is no sign. */
  lemma NumIff(s: string)
    ensures IsNum(s) <==>
            && s != [] && (s[0] in "+-" || s[0] in DIGITS)
            && forall i :: 1 <= i < |s| ==> s[i] in DIGITS
  {
    forall c: char ensures IsDigit(c) <==> c in DIGITS { DigitIs(c); }
  }

  predicate AllDigits(s: string) {
    forall i :: 0 <= i < |s| ==> s[i] in DIGITS
  }

  function Power10(n: nat): nat {
    if n == 0 then 1 else 10 * Power10(n - 1)
  }

  /** Every digit counts by its place: the first of n + 1 digits counts 10^n. */
  lemma {:induction false} DigitsByPlace(c: char, s: string)
    ensures Digits([c] + s) == (c as int - '0' as int) * Power10(|s|) + Digits(s)
    decreases |s|
  {
    if s == [] {
      assert [c] + s == [c];
      assert [c][..0] == [];
    } else {
      var n := |s| - 1;
      DigitsByPlace(c, s[..n]);
      assert ([c] + s)[..n + 1] == [c] + s[..n];
      var k, p := c as int - '0' as int, Power10(n);
      assert k * (10 * p) == 10 * (k * p);
    }
  }

  lemma {:induction false} UnsignedReads(n: nat)
    ensures AllDigits(Unsigned(n)) && Digits(Unsigned(n)) == n
  {
    DigitIs('0');
    if n < 10 {
      assert [DIGITS[n]][..0] == [];
    } else {
      var s := Unsigned(n / 10);
      UnsignedReads(n / 10);
      assert (s + [DIGITS[n % 10]])[..|s|] == s;
    }
  }

  lemma DigitsRead(s: string)
    requires s != [] && AllDigits(s)
    ensures IsNum(s) && Atoi(s) == Digits(s)
  {
    hide Digits;
    forall c: char ensures IsDigit(c) <==> c in DIGITS { DigitIs(c); }
    assert IsDigit(s[0]);
  }

  lemma SignedRead(s: string, sign: char)
    requires s != [] && AllDigits(s) && IsSign(sign)
    ensures IsNum([sign] + s) && Atoi([sign] + s) == if sign == '-' then -Digits(s) else Digits(s)
  {
    hide Digits;
    forall c: char ensures IsDigit(c) <==> c in DIGITS { DigitIs(c); }
    var t := [sign] + s;
    forall i | 1 <= i < |t| ensures IsDigit(t[i]) { assert t[i] == s[i - 1]; }
    assert t[1..] == s;
  }

  /** Every integer's spelling is a number to the tokenizer, and is that number to the assembler; so is
      its spelling with a plus sign. */
  lemma SpellingReads(n: int)
    ensures IsNum(Spelling(n)) && Atoi(Spelling(n)) == n
    ensures n >= 0 ==> IsNum("+" + Spelling(n)) && Atoi("+" + Spelling(n)) == n
  {
    hide Unsigned, Digits, AllDigits, IsNum, Atoi;
    var s := Unsigned(if n < 0 then -n else n);
    UnsignedReads(if n < 0 then -n else n);
    if n < 0 {
      SignedRead(s, '-');
    } else {
      DigitsRead(s);
      SignedRead(s, '+');
    }
  }

  // Zeros in front change nothing.
  lemma ZerosInFront(s: string)
    ensures Digits("0" + s) == Digits(s)
  {
    DigitsByPlace('0', s);
  }

  /** Every number the tokenizer takes is the sign's multiple of what its digits say, place by place. */
  lemma AtoiIs(s: string)
    requires IsNum(s)
    ensures var d := if s[0] in "+-" then s[1..] else s;
      AllDigits(d) && Atoi(s) == if s[0] == '-' then -Digits(d) else Digits(d)
  {
    NumIff(s);
    DigitIs(s[0]);
  }
}
