/** What the chain code of src/hashtable.c does to one bucket, as it is written, and when that is
    what a finite map would do.

    `carp_ht_set` compares keys with the sense inverted (line 115) and never looks at the key of the
    first entry; `carp_ht_del` assumes that the entry found is the first one (lines 72 and 73).
  */
module Chains {
  import opened Bytecode

  datatype Pair = Pair(key: string, value: int)

  type Chain = seq<Pair>

  // carp_ht_get: the first entry with the key.
  function Lookup(s: Chain, key: string): Option<int> {
    if s == [] then None else if s[0].key == key then Some(s[0].value) else Lookup(s[1..], key)
  }

  /** From the second entry on, all keys are the same.  No other chain can come about: an entry is
      appended only when there is none behind the head with another key. */
  predicate Tailed(s: Chain) {
    forall i, j :: 0 < i < j < |s| ==> s[i].key == s[j].key
  }

  // ---------------------------------------------------------------- carp_ht_set, lines 109 to 129

  // The entry the loop overwrites: the first one, not counting the head, whose key is different.
  function Victim(s: Chain, i: nat, key: string): Option<nat>
    requires i < |s|
    decreases |s| - i
  {
    if i + 1 == |s| then None
    else if s[i + 1].key != key then Some(i + 1)
    else Victim(s, i + 1, key)
  }

  function SetChain(s: Chain, key: string, v: int): Chain {
    if s == [] then [Pair(key, v)]
    else
      match Victim(s, 0, key)
      case Some(j) => if j < |s| then s[j := Pair(s[j].key, v)] else s
      case None => s + [Pair(key, v)]
  }

  // What a finite map would answer after the update.
  ghost predicate SetsRight(s: Chain, key: string, v: int) {
    forall k :: Lookup(SetChain(s, key, v), k) == if k == key then Some(v) else Lookup(s, k)
  }

  /** When there is nothing to overwrite, the key must be new or have that value already; when there
      is, it must have that value already, and the overwritten entry must have it too or be hidden. */
  predicate SetFits(s: Chain, key: string, v: int) {
    if s == [] then true
    else
      match Victim(s, 0, key)
      case None => Lookup(s, key) == None || Lookup(s, key) == Some(v)
      case Some(j) => j < |s| && Lookup(s, key) == Some(v) && (s[j].value == v || s[j].key == s[0].key)
  }

  lemma {:induction false} VictimIs(s: Chain, i: nat, key: string)
    requires i < |s|
    ensures var j := Victim(s, i, key);
      match j
      case None => forall x :: i < x < |s| ==> s[x].key == key
      case Some(j) => i < j < |s| && s[j].key != key && forall x :: i < x < j ==> s[x].key == key
    decreases |s| - i
  {
    if i + 1 < |s| && s[i + 1].key == key {
      VictimIs(s, i + 1, key);
    }
  }

  lemma {:induction false} LookupAppend(s: Chain, t: Chain, key: string)
    ensures Lookup(s + t, key) == if Lookup(s, key).Some? then Lookup(s, key) else Lookup(t, key)
  {
    if s == [] {
      assert s + t == t;
    } else {
      assert (s + t)[1..] == s[1..] + t;
      LookupAppend(s[1..], t, key);
    }
  }

  // The first entry with the key decides.
  lemma {:induction false} LookupAt(s: Chain, i: nat, key: string)
    requires i < |s| && s[i].key == key && forall x :: 0 <= x < i ==> s[x].key != key
    ensures Lookup(s, key) == Some(s[i].value)
  {
    if i > 0 {
      LookupAt(s[1..], i - 1, key);
    }
  }

  lemma {:induction false} LookupAbsent(s: Chain, key: string)
    ensures Lookup(s, key) == None <==> forall x :: 0 <= x < |s| ==> s[x].key != key
  {
    if s != [] {
      LookupAbsent(s[1..], key);
      assert forall x :: 0 < x < |s| ==> s[x] == s[1..][x - 1];
    }
  }

  // Overwriting entry j changes one answer at most, and only if the entry is not hidden.
  lemma {:induction false} LookupOverwritten(s: Chain, j: nat, v: int, key: string)
    requires j < |s|
    ensures Lookup(s[j := Pair(s[j].key, v)], key) ==
            if key == s[j].key && (forall x :: 0 <= x < j ==> s[x].key != key) then Some(v) else Lookup(s, key)
  {
    var t := s[j := Pair(s[j].key, v)];
    if j > 0 {
      assert t[1..] == s[1..][j - 1 := Pair(s[1..][j - 1].key, v)];
      LookupOverwritten(s[1..], j - 1, v, key);
      assert forall x :: 0 < x < j ==> s[x] == s[1..][x - 1];
    }
  }

  /** As written, setting a key is right exactly when `SetFits` holds of the bucket. */
  lemma SetIsRightIff(s: Chain, key: string, v: int)
    ensures SetsRight(s, key, v) <==> SetFits(s, key, v)
  {
    if s == [] {
      assert forall k :: Lookup([Pair(key, v)], k) == if k == key then Some(v) else None;
    } else {
      VictimIs(s, 0, key);
      match Victim(s, 0, key)
      case None =>
        forall k ensures Lookup(s + [Pair(key, v)], k) ==
                         if Lookup(s, k).Some? then Lookup(s, k) else if k == key then Some(v) else None
        {
          LookupAppend(s, [Pair(key, v)], k);
        }
      case Some(j) =>
        forall k
          ensures Lookup(SetChain(s, key, v), k) == if k == s[j].key && s[0].key != k then Some(v) else Lookup(s, k)
        {
          LookupOverwritten(s, j, v, k);
        }
        if s[0].key != s[j].key { LookupAt(s, j, s[j].key); }
        if SetsRight(s, key, v) {
          assert Lookup(SetChain(s, key, v), key) == Some(v);
          assert Lookup(SetChain(s, key, v), s[j].key) == Lookup(s, s[j].key);
        }
    }
  }

  // A new key can be added to a bucket of at most one entry, and to no other.
  lemma NewKeyFits(s: Chain, key: string, v: int)
    requires Lookup(s, key) == None
    ensures SetFits(s, key, v) <==> |s| <= 1
  {
    if s != [] {
      VictimIs(s, 0, key);
      LookupAbsent(s, key);
    }
  }

  // The answer for a key that is present is never changed by setting that key.
  lemma UpdateNeverSeen(s: Chain, key: string, v: int)
    requires Lookup(s, key).Some?
    ensures Lookup(SetChain(s, key, v), key) == Lookup(s, key)
    ensures Lookup(s, key) != Some(v) ==> !SetFits(s, key, v)
  {
    VictimIs(s, 0, key);
    match Victim(s, 0, key)
    case None => LookupAppend(s, [Pair(key, v)], key);
    case Some(j) => LookupOverwritten(s, j, v, key);
  }

  lemma SetKeepsTailed(s: Chain, key: string, v: int)
    requires Tailed(s)
    ensures Tailed(SetChain(s, key, v))
  {
    if s != [] { VictimIs(s, 0, key); }
  }

  // An absent key stays absent, unless it is the one set; and even then if there is an entry to overwrite.
  lemma StaysAbsent(s: Chain, key: string, v: int, k: string)
    requires Lookup(s, k) == None && (k == key ==> |s| >= 2)
    ensures Lookup(SetChain(s, key, v), k) == None
  {
    if s != [] { VictimIs(s, 0, key); }
    LookupAbsent(s, k);
    LookupAbsent(SetChain(s, key, v), k);
  }

  // ---------------------------------------------------------------- carp_ht_del

  // What is left of the bucket: everything up to and including the entry found is gone.
  function DelChain(s: Chain, key: string): Chain {
    if s == [] then s else if s[0].key == key then s[1..] else if Lookup(s, key).None? then s else DelChain(s[1..], key)
  }

  ghost predicate DeletesRight(s: Chain, key: string) {
    forall k :: Lookup(DelChain(s, key), k) == if k == key then None else Lookup(s, k)
  }

  // Up to the first entry with the key.
  lemma {:induction false} DelTail(s: Chain, key: string)
    ensures Lookup(s, key).None? ==> DelChain(s, key) == s
    ensures Lookup(s, key).Some? ==>
              exists i :: 0 <= i < |s| && s[i].key == key && DelChain(s, key) == s[i + 1..] && key !in Keys(s[..i])
  {
    if s != [] && s[0].key == key && Lookup(s, key).Some? {
      assert Keys(s[..0]) == {};
      assert s[0].key == key && DelChain(s, key) == s[0 + 1..];
    } else if s != [] && Lookup(s, key).Some? {
      DelTail(s[1..], key);
      var i :| 0 <= i < |s[1..]| && s[1..][i].key == key && DelChain(s[1..], key) == s[1..][i + 1..]
               && key !in Keys(s[1..][..i]);
      assert s[i + 1].key == key && s[i + 1 + 1..] == s[1..][i + 1..];
      assert forall j :: 0 < j < i + 1 ==> s[j] == s[1..][..i][j - 1];
      assert key !in Keys(s[..i + 1]);
    }
  }

  function Keys(s: Chain): set<string> {
    set i | 0 <= i < |s| :: s[i].key
  }

  lemma DelKeepsTailed(s: Chain, key: string)
    requires Tailed(s)
    ensures Tailed(DelChain(s, key))
  {
    DelTail(s, key);
  }

  /** The key must be absent; or it must not occur again behind the entry found, and what is left
      must answer for every other key that stood before that entry. */
  predicate DelFits(s: Chain, key: string) {
    var rest := DelChain(s, key);
    || Lookup(s, key).None?
    || (&& Lookup(rest, key).None?
        && forall i :: 0 <= i < |s| - |rest| && i < |s| && s[i].key != key ==>
             Lookup(rest, s[i].key) == Lookup(s, s[i].key))
  }

  /** As written, deleting a key from any chain is right exactly when `DelFits` holds of it. */
  lemma DeleteIsRightIff(s: Chain, key: string)
    ensures DeletesRight(s, key) <==> DelFits(s, key)
  {
    DelTail(s, key);
    LookupAbsent(s, key);
    if Lookup(s, key).Some? {
      var n := |s| - |DelChain(s, key)|;
      assert s == s[..n] + DelChain(s, key);
      forall k
        ensures Lookup(s, k) == if Lookup(s[..n], k).Some? then Lookup(s[..n], k) else Lookup(DelChain(s, key), k)
      {
        LookupAppend(s[..n], DelChain(s, key), k);
      }
      forall k ensures Lookup(s[..n], k) == None <==> forall i :: 0 <= i < n ==> s[i].key != k {
        LookupAbsent(s[..n], k);
      }
    }
  }

  /** In the chains that come about: exactly when the key is absent, or first and not there again. */
  lemma DeleteTailedIff(s: Chain, key: string)
    requires Tailed(s)
    ensures DelFits(s, key) <==> Lookup(s, key).None? || (s[0].key == key && Lookup(s[1..], key).None?)
  {
    DelTail(s, key);
    LookupAbsent(s, key);
    if Lookup(s, key).Some? && s[0].key != key {
      var i :| 0 <= i < |s| && s[i].key == key && DelChain(s, key) == s[i + 1..];
      LookupAbsent(s[i + 1..], s[0].key);
      LookupAbsent(s, s[0].key);
    }
  }
}
