/** The hash table of src/hashtable.c as linked entries hanging off an array of buckets.  The
    ghost field `table` is what they hold, as a value of `Tables.Table`; every method does to it what
    the function of the same purpose in `Tables` says.
  */
module HashTables {
  import opened Bytecode
  import opened Chains
  import opened Tables

  class Entry {
    const key: string
    var value: int
    var next: Entry?

    constructor (key: string, value: int)
      ensures this.key == key && this.value == value && next == null
    {
      this.key, this.value, next := key, value, null;
    }
  }

  ghost function After(s: seq<Entry>, i: int): Entry? {
    if 0 <= i < |s| - 1 then s[i + 1] else null
  }

  // The entries of one bucket, from the head on, and what they hold.
  ghost predicate Linked(head: Entry?, s: seq<Entry>, p: Chain)
    reads s
  {
    && head == (if s == [] then null else s[0])
    && |p| == |s|
    && (forall i :: 0 <= i < |s| ==> s[i].next == After(s, i))
    && (forall i :: 0 <= i < |s| ==> p[i] == Pair(s[i].key, s[i].value))
    && (forall i, j :: 0 <= i < j < |s| ==> s[i] != s[j])
  }

  lemma SuffixLinked(head: Entry?, s: seq<Entry>, p: Chain, j: nat)
    requires Linked(head, s, p) && j < |s|
    ensures Linked(s[j].next, s[j + 1..], p[j + 1..])
  {
  }

  method RawHashOf(key: string) returns (hash: int)
    ensures hash == RawHash(key)
  {
    hash := 5381;
    for i := 0 to |key|
      invariant hash == RawHash(key[..i])
    {
      assert key[..i + 1][..i] == key[..i];
      hash := (hash * 33 + key[i] as int) % TWO_64;
    }
    assert key[..|key|] == key;
  }

  function Overwritten(t: Table, b: int, j: nat, value: int): Table
    requires 0 <= b < |t| && j < |t[b]|
  {
    t[b := t[b][j := Pair(t[b][j].key, value)]]
  }

  class HashTable {
    var size: int
    var buckets: array<Entry?>
    // The entries of every bucket, and which bucket an entry is in.
    ghost var chains: seq<seq<Entry>>
    ghost var home: map<Entry, int>
    // What the table holds, as a value.
    ghost var table: Table

    ghost predicate Valid()
      reads this, buckets, home.Keys
    {
      && 0 < size == buckets.Length == |chains| == |table|
      && (forall b, i :: 0 <= b < |chains| && 0 <= i < |chains[b]| ==>
            chains[b][i] in home && home[chains[b][i]] == b)
      && (forall b :: 0 <= b < |chains| ==> Linked(buckets[b], chains[b], table[b]))
    }

    // carp_ht_init
    constructor (size: int)
      requires size > 0
      ensures Valid() && table == Tables.Empty(size) && fresh(buckets) && fresh(home.Keys)
    {
      this.size := size;
      buckets := new Entry?[size](i => null);
      chains := seq(size, i => []);
      home := map[];
      table := Tables.Empty(size);
    }

    method HashOf(key: string) returns (b: int)
      requires Valid()
      ensures b == Hash(key, |table|) && 0 <= b < size
    {
      var raw := RawHashOf(key);
      return raw % size;
    }

    // carp_ht_used; within the load bound the percentage is not changed by narrowing it to a short.
    method UsedPercent() returns (percent: int)
      requires Valid()
      ensures percent == ToShort(Used(table)) && (Loaded(table) ==> percent == Used(table))
    {
      hide ToShort, Linked, Loaded;
      ShortIsUsed(table);
      var inUse := 0;
      for i := 0 to size
        invariant inUse == Entries(table[..i])
      {
        var base := buckets[i];
        ghost var j := 0;
        EmptyBucket(i);
        while base != null
          invariant 0 <= j <= |chains[i]| && base == (if j < |chains[i]| then chains[i][j] else null)
          invariant inUse == Entries(table[..i]) + j
          decreases |chains[i]| - j
        {
          NextEntry(i, j);
          inUse, base, j := inUse + 1, base.next, j + 1;
        }
        assert table[..i + 1][..i] == table[..i];
      }
      assert table[..size] == table;
      return ToShort(inUse * 100 / size);
    }

    // carp_ht_get: the entry, and in proofs its index in the chain.
    method Find(key: string) returns (entry: Entry?, ghost j: nat)
      requires Valid()
      ensures Get(table, key) == (if entry == null then None else Some(entry.value))
      ensures entry != null ==>
                var b := Hash(key, |table|);
                && j < |chains[b]| && entry == chains[b][j] && entry.key == key
                && DelChain(table[b], key) == table[b][j + 1..]
    {
      var b := HashOf(key);
      entry, j := buckets[b], 0;
      ghost var s, p := chains[b], table[b];
      assert Linked(buckets[b], s, p);
      assert p[0..] == p;
      while entry != null && entry.key != key
        invariant 0 <= j <= |s| && entry == (if j < |s| then s[j] else null)
        invariant Lookup(p, key) == Lookup(p[j..], key)
        invariant Lookup(p, key).Some? ==> DelChain(p, key) == DelChain(p[j..], key)
        decreases |s| - j
      {
        assert p[j..][1..] == p[j + 1..];
        assert entry == s[j] && s[j].next == After(s, j);
        entry, j := entry.next, j + 1;
      }
      if entry != null {
        assert p[j..][1..] == p[j + 1..];
      }
    }

    // One bucket gets a new head; s and p describe the chain that starts there.
    method SetHead(b: int, head: Entry?, ghost s: seq<Entry>, ghost p: Chain)
      requires Valid() && 0 <= b < size && Linked(head, s, p)
      requires forall i :: 0 <= i < |s| ==> s[i] in home && home[s[i]] == b
      modifies this`chains, this`table, buckets
      ensures Valid() && table == old(table)[b := p] && chains == old(chains)[b := s]
    {
      hide Linked;
      buckets[b] := head;
      chains := chains[b := s];
      table := table[b := p];
    }

    // carp_ht_del: 1 when the key is absent, otherwise 0; line 88 is never reached.
    method Delete(key: string) returns (status: int)
      requires Valid()
      modifies this`chains, this`table, buckets
      ensures Valid() && table == Del(old(table), key)
      ensures status == if Get(old(table), key) == None then 1 else 0
    {
      var b := HashOf(key);
      var base, j := Find(key);
      hide Lookup, DelChain, Hash;
      if base == null {
        DelTail(table[b], key);
        assert table[b := table[b]] == table;
        return 1;
      }
      SuffixLinked(buckets[b], chains[b], table[b], j);
      SetHead(b, base.next, chains[b][j + 1..], table[b][j + 1..]);
      return 0;
    }

    // ---------------------------------------------------------------- carp_ht_set

    // Entry j of bucket b gets a new value.
    method Overwrite(b: int, entry: Entry, value: int, ghost j: nat)
      requires Valid() && 0 <= b < size && j < |chains[b]| && entry == chains[b][j]
      modifies this`table, home.Keys`value
      ensures Valid() && j < |old(table)[b]| && table == Overwritten(old(table), b, j, value)
    {
      ghost var p := table[b];
      entry.value := value;
      table := table[b := p[j := Pair(p[j].key, value)]];
      assert Linked(buckets[b], chains[b], table[b]);
      forall c | 0 <= c < |chains| && c != b ensures Linked(buckets[c], chains[c], table[c]) {
        assert entry !in chains[c];
      }
    }

    // The entry behind the last one of bucket b, which has one at least.
    method Append(b: int, last: Entry, entry: Entry)
      requires Valid() && 0 <= b < size && chains[b] != [] && last == chains[b][|chains[b]| - 1]
      requires entry in home && home[entry] == b && entry.next == null && entry !in chains[b]
      modifies this`table, this`chains, last`next
      ensures Valid() && table == old(table)[b := old(table[b]) + [Pair(entry.key, entry.value)]]
    {
      ghost var s, p := chains[b], table[b];
      LinkBehind(last, entry, buckets[b], s, p);
      forall c | 0 <= c < |chains| && c != b ensures Linked(buckets[c], chains[c], table[c]) {
        assert last !in chains[c];
      }
      Describe(b, s + [entry], p + [Pair(entry.key, entry.value)]);
    }

    // The ghost account of bucket b is brought up to date.
    ghost method Describe(b: int, s: seq<Entry>, p: Chain)
      requires 0 < size == buckets.Length == |chains| == |table| && 0 <= b < size
      requires forall c, i :: 0 <= c < |chains| && 0 <= i < |chains[c]| ==>
                 chains[c][i] in home && home[chains[c][i]] == c
      requires forall c :: 0 <= c < |chains| && c != b ==> Linked(buckets[c], chains[c], table[c])
      requires Linked(buckets[b], s, p) && forall i :: 0 <= i < |s| ==> s[i] in home && home[s[i]] == b
      modifies this`table, this`chains
      ensures Valid() && table == old(table)[b := p] && chains == old(chains)[b := s]
    {
      hide Linked;
      chains := chains[b := s];
      table := table[b := p];
    }

    // An entry that is nowhere yet is reserved for bucket b.
    ghost method Admit(entry: Entry, b: int)
      requires Valid() && entry !in home
      modifies this`home
      ensures Valid() && home == old(home)[entry := b]
      ensures forall c, i :: 0 <= c < |chains| && 0 <= i < |chains[c]| ==> chains[c][i] != entry
    {
      hide Linked;
      home := home[entry := b];
    }

    // Lines 106 to 131.
    method Insert(key: string, value: int)
      requires Valid()
      modifies this`table, this`chains, this`home, buckets, home.Keys`value, home.Keys`next
      ensures Valid() && table == Put(old(table), key, value) && fresh(home.Keys - old(home.Keys))
    {
      hide Linked, Hash;
      var b := HashOf(key);
      if buckets[b] == null {
        EmptyBucket(b);
        var e := new Entry(key, value);
        Admit(e, b);
        SingleLinked(e);
        SetHead(b, e, [e], [Pair(key, value)]);
      } else {
        InsertInChain(b, key, value);
      }
    }

    lemma EmptyBucket(b: int)
      requires Valid() && 0 <= b < size
      ensures |table[b]| == |chains[b]| && buckets[b] == (if chains[b] == [] then null else chains[b][0])
    {
      assert Linked(buckets[b], chains[b], table[b]);
    }

    // The chain loop: it overwrites the first entry behind the head that has another key.
    method InsertInChain(b: int, key: string, value: int)
      requires Valid() && 0 <= b < size && buckets[b] != null
      modifies this`table, this`chains, this`home, home.Keys`value, home.Keys`next
      ensures Valid() && fresh(home.Keys - old(home.Keys))
      ensures table == old(table)[b := SetChain(old(table[b]), key, value)]
    {
      EmptyBucket(b);
      var base := buckets[b];
      ghost var j := 0;
      while base.next != null
        invariant Valid() && table == old(table) && chains == old(chains) && home == old(home)
        invariant j < |chains[b]| == |table[b]| && base == chains[b][j]
        invariant Victim(table[b], 0, key) == Victim(table[b], j, key)
        decreases |chains[b]| - j
      {
        NextEntry(b, j);
        if base.next.key != key {
          Overwrite(b, base.next, value, j + 1);
          return;
        }
        base, j := base.next, j + 1;
      }
      NextEntry(b, j);
      var e := new Entry(key, value);
      Admit(e, b);
      Append(b, base, e);
    }

    lemma NextEntry(b: int, j: nat)
      requires Valid() && 0 <= b < size && j < |chains[b]|
      ensures chains[b][j].next == After(chains[b], j) && |table[b]| == |chains[b]|
      ensures j + 1 < |chains[b]| ==> table[b][j + 1].key == chains[b][j + 1].key
    {
      assert Linked(buckets[b], chains[b], table[b]);
    }

    /** carp_ht_set.  `granted` says whether the calloc of a resize succeeds.  The recursion through
        `Grow` ends at depth one: a table being filled by a resize is never hot. */
    method Set(key: string, value: int, granted: bool) returns (failed: bool)
      requires Valid() && Loaded(table)
      modifies this, buckets, home.Keys
      ensures Valid() && Loaded(table)
      ensures fresh(home.Keys - old(home.Keys)) && (buckets == old(buckets) || fresh(buckets))
      ensures failed <==> Used(old(table)) > 60 && !granted
      ensures table == if failed then old(table) else Tables.Set(old(table), key, value)
      decreases if Used(table) > 60 then 1 else 0, 1
    {
      var percent := UsedPercent();
      SetKeepsLoad(table, key, value);
      if percent > 60 {
        failed := Grow(granted);
        if failed {
          return true;
        }
      }
      Insert(key, value);
      return false;
    }

    // carp_ht_resize
    method Grow(granted: bool) returns (failed: bool)
      requires Valid() && Loaded(table)
      modifies this
      ensures Valid() && failed == !granted
      ensures failed ==> table == old(table) && home == old(home) && buckets == old(buckets)
      ensures !failed ==> table == Resize(old(table)) && fresh(home.Keys) && fresh(buckets)
      decreases 1, 0
    {
      if !granted {
        return true;
      }
      hide *;
      var bigger := Copied();
      TakeOver(bigger);
      return false;
    }

    // The new table of line 157, filled.
    method Copied() returns (bigger: HashTable)
      requires Valid() && Loaded(table)
      ensures bigger.Valid() && bigger.table == Resize(table)
      ensures fresh(bigger) && fresh(bigger.buckets) && fresh(bigger.home.Keys)
      decreases 0, 5
    {
      hide Used, Loaded, Linked, PutAll, Flatten, Tables.Empty, Resize;
      bigger := new HashTable(2 * size + 1);
      Refill(bigger);
    }

    // The outer loop.
    method Refill(bigger: HashTable)
      requires Valid() && Loaded(table)
      requires bigger.Valid() && bigger != this && bigger.buckets != buckets && bigger.home.Keys !! home.Keys
      requires bigger.table == Tables.Empty(2 * size + 1)
      modifies bigger, bigger.buckets, bigger.home.Keys
      ensures bigger.Valid() && fresh(bigger.home.Keys - old(bigger.home.Keys))
      ensures bigger.buckets == old(bigger.buckets) || fresh(bigger.buckets)
      ensures bigger.table == Resize(table)
      decreases 0, 4
    {
      hide Used, Loaded, PutAll, Flatten, Tables.Empty, Linked;
      NoneYet(table, 2 * size + 1);
      for i := 0 to size
        invariant bigger.Valid() && fresh(bigger.home.Keys - old(bigger.home.Keys))
        invariant bigger.buckets == old(bigger.buckets) || fresh(bigger.buckets)
        invariant bigger.table == PutAll(Tables.Empty(2 * size + 1), Flatten(table[..i]))
      {
        CopyBucket(bigger, i);
      }
      assert table[..size] == table;
    }

    // Lines 175 and 176: the header gets the new size and buckets.
    method TakeOver(bigger: HashTable)
      requires bigger.Valid()
      modifies this
      ensures Valid() && table == bigger.table && home == bigger.home && buckets == bigger.buckets
    {
      hide Linked;
      size, buckets := bigger.size, bigger.buckets;
      chains, home, table := bigger.chains, bigger.home, bigger.table;
    }

    // One turn of the outer loop: every entry of bucket i is set in the bigger table.
    method CopyBucket(bigger: HashTable, i: int)
      requires Valid() && Loaded(table) && 0 <= i < size
      requires bigger.Valid() && bigger != this && bigger.buckets != buckets && bigger.home.Keys !! home.Keys
      requires bigger.table == PutAll(Tables.Empty(2 * size + 1), Flatten(table[..i]))
      modifies bigger, bigger.buckets, bigger.home.Keys
      ensures bigger.Valid() && fresh(bigger.home.Keys - old(bigger.home.Keys))
      ensures bigger.buckets == old(bigger.buckets) || fresh(bigger.buckets)
      ensures bigger.table == PutAll(Tables.Empty(2 * size + 1), Flatten(table[..i + 1]))
      decreases 0, 3
    {
      hide Used, Loaded, PutAll, Flatten, Tables.Empty, Linked;
      var base := buckets[i];
      ghost var j := 0;
      EmptyBucket(i);
      assert table[i][..0] == [] && Flatten(table[..i]) + [] == Flatten(table[..i]);
      while base != null
        invariant 0 <= j <= |chains[i]| == |table[i]| && base == (if j < |chains[i]| then chains[i][j] else null)
        invariant bigger.Valid() && fresh(bigger.home.Keys - old(bigger.home.Keys))
        invariant bigger.buckets == old(bigger.buckets) || fresh(bigger.buckets)
        invariant bigger.table == PutAll(Tables.Empty(2 * size + 1), Flatten(table[..i]) + table[i][..j])
        decreases |chains[i]| - j
      {
        NextEntry(i, j);
        CopyEntry(bigger, base, i, j);
        base, j := base.next, j + 1;
      }
      FlattenStep(table, i);
    }

    // Line 169.
    method CopyEntry(bigger: HashTable, base: Entry, ghost i: nat, ghost j: nat)
      requires Valid() && Loaded(table) && i < size && j < |chains[i]| == |table[i]| && base == chains[i][j]
      requires bigger.Valid()
      requires bigger.table == PutAll(Tables.Empty(2 * size + 1), Flatten(table[..i]) + table[i][..j])
      modifies bigger, bigger.buckets, bigger.home.Keys
      ensures bigger.Valid() && fresh(bigger.home.Keys - old(bigger.home.Keys))
      ensures bigger.buckets == old(bigger.buckets) || fresh(bigger.buckets)
      ensures bigger.table == old(PutAll(Tables.Empty(2 * size + 1), Flatten(table[..i]) + table[i][..j + 1]))
      decreases 0, 2
    {
      hide Used, Loaded, PutAll, Flatten, Tables.Set, Tables.Empty;
      NextSet(table, i, j);
      assert table[i][j] == Pair(base.key, base.value) by {
        assert Linked(buckets[i], chains[i], table[i]);
      }
      var _ := bigger.Set(base.key, base.value, true);
    }
  }

  method LinkBehind(last: Entry, entry: Entry, ghost head: Entry?, ghost s: seq<Entry>, ghost p: Chain)
    requires Linked(head, s, p) && s != [] && last == s[|s| - 1] && entry !in s && entry.next == null
    modifies last`next
    ensures Linked(head, s + [entry], p + [Pair(entry.key, entry.value)])
  {
    last.next := entry;
  }

  lemma SingleLinked(e: Entry)
    requires e.next == null
    ensures Linked(e, [e], [Pair(e.key, e.value)])
  {
  }

  lemma NoneYet(t: Table, n: nat)
    requires n > 0
    ensures PutAll(Tables.Empty(n), Flatten(t[..0])) == Tables.Empty(n)
  {
  }

  lemma FlattenStep(t: Table, i: nat)
    requires i < |t|
    ensures Flatten(t[..i + 1]) == Flatten(t[..i]) + t[i][..|t[i]|]
  {
    assert t[..i + 1][..i] == t[..i] && t[i][..|t[i]|] == t[i];
  }
}
