/** `carp_run_program` of src/machine.c, from the words of the text on. */
module Program {
  import opened Bytecode
  import opened Vm
  import opened Runs
  import opened Tables
  import opened Assembler
  import opened Tokenizer
  import Lexer
  import Machines

  // What is loaded, and the state the machine starts in.
  function Code(xs: seq<Lexeme>, junk: nat -> int): seq<int>
    requires Values(xs, junk, false).Some?
  {
    LoadedPart(Values(xs, junk, false).value)
  }

  function First(xs: seq<Lexeme>): Config {
    Boot(Get(Labels(xs, false), "main"))
  }

  // On, and about to fetch the word at k, with nothing on the stack and nothing printed.
  predicate StartsAt(c: Config, k: int) {
    && c.regs[IP] + 1 == k && c.regs[RUN] == 1 && c.mem == [0] && c.out == []
    && forall r :: 0 <= r < NUM_REGS && r != IP && r != RUN ==> c.regs[r] == 0
  }

  // carp_vm_make: with `main` at k the machine starts there; without it, it is off with code 1.
  lemma StartsAtMain(xs: seq<Lexeme>)
    ensures match Get(Labels(xs, false), "main")
            case Some(k) => StartsAt(First(xs), k)
            case None => First(xs).regs[RUN] == 0 && First(xs).regs[EXT] == 1
  {
    hide Labels, Get;
  }

  /** If the labels fit, the machine starts at the last label `main`, and fetches the NOP that stands for
      it, unless that is the last word of the text. */
  lemma FirstFetchesMain(xs: seq<Lexeme>, junk: nat -> int)
    requires Plain(xs) && LabelsFit(xs) && Values(xs, junk, false).Some? && Definition(xs, "main").Some?
    ensures var k := Definition(xs, "main").value;
      && StartsAt(First(xs), k)
      && Peek(Code(xs, junk), First(xs)) == if k + 1 < |xs| then Some(1) else None
  {
    hide Labels, Values, LabelsFit, Get, Boot, StartsAt, Peek, Definition;
    StartsAtMain(xs);
    LabelsAnswer(xs, false);
    LabelFound(xs, junk, false, "main");
    FetchesAt(Code(xs, junk), First(xs), Definition(xs, "main").value);
  }

  lemma FetchesAt(code: seq<int>, c: Config, k: int)
    requires StartsAt(c, k)
    ensures Peek(code, c) == if 0 <= k < |code| then Some(code[k]) else None
  {
  }

  /** Tokenize, assemble, make the machine, run it.  If the text has values and the label table gets
      its memory, the machine goes through the run of the assembled image; a run of at most n turns
      that ends is all that is asked for. */
  method RunWords(env: Env, words: seq<string>, junk: nat -> int, granted: nat -> bool, ghost n: nat)
    returns (ok: bool, ext: int, machine: Machines.Machine?)
    requires words != []
    requires var xs := Scan(words); Values(xs, junk, false).Some? ==>
        var d := Turns(env, Code(xs, junk), First(xs), n); d.Some? && !On(d.value)
    ensures !ok ==> Values(Scan(words), junk, false).None? || exists k :: 0 <= k < |words| && !granted(k)
    ensures ok ==> machine != null && machine.Valid() && Values(Scan(words), junk, false).Some?
                   && Turns(env, Code(Scan(words), junk), First(Scan(words)), n) == Some(machine.Snap())
                   && ext == machine.Snap().regs[EXT]
    ensures ok ==>
              match Get(Labels(Scan(words), false), "main")
              case Some(k) => StartsAt(First(Scan(words)), k)
              case None => ext == 1 && machine.Snap() == First(Scan(words))
    ensures !ok ==> ext == 1
  {
    hide Values, Labels, Turns, Lexer.TokenList, Scan, Boot, Get, StartsAt;
    StartsAtMain(Scan(words));
    var head, s := Tokenize(words, junk);
    var code, labels;
    ok, code, labels := Lexer.Lex(head, granted, s, Scan(words), junk);
    ext, machine := 1, null;
    if ok {
      var main, _ := labels.Find("main");
      machine := new Machines.Machine.Make(env, code, if main == null then None else Some(main.value));
      ext := machine.Loop(n);
      if Get(Labels(Scan(words), false), "main") == None { NoMainNoRun(env, Scan(words), junk, n); }
    }
  }

  /** A text without a label `main` runs nothing and returns 1. */
  lemma NoMainNoRun(env: Env, xs: seq<Lexeme>, junk: nat -> int, n: nat)
    requires Values(xs, junk, false).Some? && Get(Labels(xs, false), "main") == None
    ensures var d := Turns(env, Code(xs, junk), First(xs), n);
      d == Some(First(xs)) && d.value.regs[EXT] == 1 && d.value.out == []
  {
    hide Labels, Values, Step;
  }
}
