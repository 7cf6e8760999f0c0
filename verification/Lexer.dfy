/** `carp_lex_lex` of src/lexer.c on a linked list of tokens. */
module Lexer {
  import opened Bytecode
  import opened Tables
  import opened HashTables
  import opened Assembler

  class Token {
    const lexeme: Lexeme
    const pos: int
    var value: int
    var next: Token?

    // The value of a token fresh from malloc is whatever the memory held.
    constructor (lexeme: Lexeme, pos: int, junk: int)
      ensures this.lexeme == lexeme && this.pos == pos && next == null && value == junk
    {
      this.lexeme, this.pos, next, value := lexeme, pos, null, junk;
    }
  }

  ghost function After(s: seq<Token>, i: int): Token? {
    if 0 <= i < |s| - 1 then s[i + 1] else null
  }

  // The tokens from head on, what they say, and their positions.
  ghost predicate TokenList(head: Token, s: seq<Token>, xs: seq<Lexeme>)
    reads s`next
  {
    && s != [] && head == s[0] && |xs| == |s|
    && (forall i :: 0 <= i < |s| ==> s[i].next == After(s, i))
    && (forall i :: 0 <= i < |s| ==> s[i].lexeme == xs[i] && s[i].pos == i)
    && (forall i, j :: 0 <= i < j < |s| ==> s[i] != s[j])
  }

  // carp_reg_lookup and carp_instr_lookup
  method LookupName(names: seq<string>, s: string) returns (r: int)
    ensures r == IndexIn(names, s, 0)
  {
    for i := 0 to |names|
      invariant IndexIn(names, s, 0) == IndexIn(names, s, i)
    {
      if names[i] == s {
        return i;
      }
    }
    return -1;
  }

  /** The value of one token, and its label entered.  `failed` stands for the calls of carp_lex_exit:
      an unknown token, an unknown label, or a label table that could not grow. */
  method Value(x: Lexeme, pos: int, was: int, labels: HashTable, granted: bool) returns (failed: bool, value: int)
    requires labels.Valid() && Loaded(labels.table)
    modifies labels, labels.buckets, labels.home.Keys
    ensures labels.Valid() && Tables.Loaded(labels.table)
    ensures fresh(labels.home.Keys - old(labels.home.Keys))
    ensures labels.buckets == old(labels.buckets) || fresh(labels.buckets)
    ensures !failed ==> ValueOf(x, was, old(labels.table)) == Some(value)
                        && labels.table == LabelsAfter(x, pos, old(labels.table), false)
    ensures failed <==> ValueOf(x, was, old(labels.table)) == None
                        || (x.kind == Lbl && Used(old(labels.table)) > 60 && !granted)
  {
    failed, value := false, was;
    match x.kind {
      case Undef => failed := true;
      case Num => value := Atoi(x.text);
      case Reg => value := LookupName(REG_NAMES, x.text);
      case Lbl =>
        failed := labels.Set(x.text, pos, granted);
        value := 1;
      case Func =>
        var entry, _ := labels.Find(x.text);
        if entry == null {
          failed := true;
        } else {
          value := entry.value;
        }
      case Var =>
      case Instr => value := LookupName(INSTR_NAMES, x.text);
    }
  }

  // The first tokens have been given these values.
  ghost predicate Valued(s: seq<Token>, w: seq<int>)
    reads s`value
  {
    |w| <= |s| && forall j :: 0 <= j < |w| ==> s[j].value == w[j]
  }

  // The tokens from i on hold what they held when they were allocated.
  ghost predicate Untouched(s: seq<Token>, junk: nat -> int, i: nat)
    reads s`value
  {
    forall j :: i <= j < |s| ==> s[j].value == junk(j)
  }

  method Assign(t: Token, value: int, ghost s: seq<Token>, ghost w: seq<int>, ghost junk: nat -> int)
    requires Valued(s, w) && |w| < |s| && t == s[|w|] && forall j, k :: 0 <= j < k < |s| ==> s[j] != s[k]
    requires Untouched(s, junk, |w|)
    modifies t`value
    ensures Valued(s, w + [value]) && Untouched(s, junk, |w| + 1)
  {
    t.value := value;
  }

  // After i tokens the table and the values are those of the specification.
  ghost predicate DoneSoFar(labels: HashTable, s: seq<Token>, xs: seq<Lexeme>, junk: nat -> int, i: nat)
    requires i <= |xs|
    reads labels, labels.buckets, labels.home.Keys, s`value
  {
    && labels.Valid() && Tables.Loaded(labels.table) && labels.table == Labels(xs[..i], false)
    && Values(xs[..i], junk, false).Some? && Valued(s, Values(xs[..i], junk, false).value) && Untouched(s, junk, i)
  }

  // One turn of the first loop.
  method OneToken(t: Token, labels: HashTable, granted: bool, ghost s: seq<Token>, ghost xs: seq<Lexeme>,
                  ghost junk: nat -> int, ghost i: nat)
    returns (failed: bool)
    requires i < |s| == |xs| && t == s[i] && t.lexeme == xs[i] && t.pos == i
    requires forall j, k :: 0 <= j < k < |s| ==> s[j] != s[k]
    requires DoneSoFar(labels, s, xs, junk, i)
    modifies t`value, labels, labels.buckets, labels.home.Keys
    ensures fresh(labels.home.Keys - old(labels.home.Keys))
    ensures labels.buckets == old(labels.buckets) || fresh(labels.buckets)
    ensures if failed then Values(xs, junk, false).None? || !granted else DoneSoFar(labels, s, xs, junk, i + 1)
  {
    hide Labels, Values, Valued;
    ValuesStep(xs, junk, false, i);
    var value;
    failed, value := Value(t.lexeme, t.pos, t.value, labels, granted);
    if failed {
      if Values(xs, junk, false).Some? { ValuesPrefix(xs, junk, false, i + 1); }
    } else {
      Assign(t, value, s, Values(xs[..i], junk, false).value, junk);
    }
  }

  // The first loop: every token gets its value, and `length` counts from -1.
  method GiveValues(head: Token, labels: HashTable, granted: nat -> bool, ghost s: seq<Token>, ghost xs: seq<Lexeme>,
                    ghost junk: nat -> int)
    returns (ok: bool, length: int)
    requires TokenList(head, s, xs) && Untouched(s, junk, 0)
    requires labels.Valid() && labels.table == Empty(10)
    modifies s`value, labels, labels.buckets, labels.home.Keys
    ensures TokenList(head, s, xs)
    ensures ok ==> length == |xs| - 1 && DoneSoFar(labels, s, xs, junk, |xs|)
    ensures !ok ==> Values(xs, junk, false).None? || exists k :: 0 <= k < |xs| && !granted(k)
  {
    hide TokenList, DoneSoFar, Values;
    length := -1;
    var tmp: Token? := head;
    ghost var i := 0;
    TokenAt(head, s, xs, 0);
    NothingDone(labels, s, xs, junk);
    while tmp != null
      invariant 0 <= i <= |s| == |xs| && length == i - 1 && TokenList(head, s, xs)
      invariant tmp == if i < |s| then s[i] else null
      invariant fresh(labels.home.Keys - old(labels.home.Keys))
      invariant labels.buckets == old(labels.buckets) || fresh(labels.buckets)
      invariant DoneSoFar(labels, s, xs, junk, i)
      decreases |s| - i
    {
      TokenAt(head, s, xs, i);
      var failed := OneToken(tmp, labels, granted(tmp.pos), s, xs, junk, i);
      if failed {
        return false, length;
      }
      TokenAt(head, s, xs, i);
      tmp, length, i := tmp.next, length + 1, i + 1;
    }
    return true, length;
  }

  lemma NothingDone(labels: HashTable, s: seq<Token>, xs: seq<Lexeme>, junk: nat -> int)
    requires labels.Valid() && labels.table == Empty(10) && Untouched(s, junk, 0)
    ensures DoneSoFar(labels, s, xs, junk, 0)
  {
    FreshTable(10);
    NothingYet(xs, junk);
  }

  lemma NothingYet(xs: seq<Lexeme>, junk: nat -> int)
    ensures Labels(xs[..0], false) == Empty(10) && Values(xs[..0], junk, false) == Some([])
  {
  }

  lemma TokenAt(head: Token, s: seq<Token>, xs: seq<Lexeme>, i: nat)
    requires TokenList(head, s, xs)
    ensures s != [] && head == s[0] && |xs| == |s|
    ensures i < |s| ==> s[i].next == After(s, i) && s[i].lexeme == xs[i] && s[i].pos == i
    ensures forall j, k :: 0 <= j < k < |s| ==> s[j] != s[k]
  {
  }

  // The second loop: values are copied to their positions, into a buffer one word longer than what
  // is loaded.
  method CopyOut(head: Token, length: int, ghost s: seq<Token>, ghost xs: seq<Lexeme>, ghost w: seq<int>)
    returns (code: array<int>)
    requires TokenList(head, s, xs) && Valued(s, w) && |w| == |s| && length == |s| - 1
    ensures fresh(code) && code[..] == w
  {
    code := new int[length + 1];
    var tmp: Token? := head;
    ghost var i := 0;
    TokenAt(head, s, xs, 0);
    while tmp != null
      invariant 0 <= i <= |s| && tmp == (if i < |s| then s[i] else null)
      invariant forall j :: 0 <= j < i ==> code[j] == w[j]
      decreases |s| - i
    {
      TokenAt(head, s, xs, i);
      code[tmp.pos] := tmp.value;
      tmp, i := tmp.next, i + 1;
    }
  }

  /** Assembly succeeds exactly when the specification has values for the text and the label table is
      never refused memory; what is loaded is all but the last of those values. */
  method Lex(head: Token, granted: nat -> bool, ghost s: seq<Token>, ghost xs: seq<Lexeme>,
                    ghost junk: nat -> int)
    returns (ok: bool, code: seq<int>, labels: HashTable)
    requires TokenList(head, s, xs) && Untouched(s, junk, 0)
    modifies s`value
    ensures ok ==> Values(xs, junk, false).Some? && code == LoadedPart(Values(xs, junk, false).value)
    ensures ok ==> labels.Valid() && labels.table == Labels(xs, false)
    ensures !ok ==> Values(xs, junk, false).None? || exists k :: 0 <= k < |xs| && !granted(k)
  {
    hide Labels, Values, TokenList, Valued;
    labels := new HashTable(10);
    var length;
    ok, length := GiveValues(head, labels, granted, s, xs, junk);
    code := [];
    if ok {
      TokenAt(head, s, xs, 0);
      assert xs[..|xs|] == xs;
      var buffer := CopyOut(head, length, s, xs, Values(xs, junk, false).value);
      code := buffer[..length];
    }
  }
}
