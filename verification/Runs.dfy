/** Runs of a machine given by one partial step, shared by the concrete and the abstract machine. */
module Runs {
  import opened Bytecode

  // At most n steps; a machine that is off stays as it is, and an undefined step is final.
  function Run<S>(step: S -> Option<S>, on: S -> bool, s: S, n: nat): Option<S>
    decreases n
  {
    if n == 0 || !on(s) then Some(s)
    else if step(s).None? then None
    else Run(step, on, step(s).value, n - 1)
  }

  lemma {:induction false} RunAdd<S>(step: S -> Option<S>, on: S -> bool, s: S, m: nat, n: nat)
    requires Run(step, on, s, m).Some?
    ensures Run(step, on, s, m + n) == Run(step, on, Run(step, on, s, m).value, n)
    decreases m
  {
    if m != 0 && on(s) {
      RunAdd(step, on, step(s).value, m - 1, n);
    }
  }

  /** Simulation carries over from steps to runs.  `rel` relates a machine s to the machine t it
      follows; `quit` holds of an s that has stopped following and is off. */
  lemma {:induction false} RunSimulates<S(!new), T(!new)>(step: S -> Option<S>, on: S -> bool,
                                                          lead: T -> Option<T>, leadOn: T -> bool,
                                                          rel: (S, T) -> bool, quit: S -> bool,
                                                          s: S, t: T, n: nat)
    requires forall x, y :: rel(x, y) ==> on(x) == leadOn(y)
    requires forall x :: quit(x) ==> !on(x)
    requires forall x, y :: rel(x, y) && leadOn(y) && lead(y).Some? ==>
               step(x).Some? && (rel(step(x).value, lead(y).value) || quit(step(x).value))
    requires rel(s, t) && Run(lead, leadOn, t, n).Some?
    ensures var r := Run(step, on, s, n);
      r.Some? && (rel(r.value, Run(lead, leadOn, t, n).value) || quit(r.value))
    decreases n
  {
    if n > 0 && leadOn(t) {
      var s', t' := step(s).value, lead(t).value;
      if rel(s', t') {
        RunSimulates(step, on, lead, leadOn, rel, quit, s', t', n - 1);
      }
    }
  }
}
