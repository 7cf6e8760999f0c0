/** The growable stack of src/stack.c.  Its height is not its own: it lives in a cell that the owner
    of the stack hands in, register SP in the machine's case.
  */
module Stacks {

  // Capacity after k growths from c, and the words all k growths together have copied.
  function Capacity(c: nat, k: nat): nat {
    if k == 0 then c else 2 * Capacity(c, k - 1) + 1
  }

  function CopiedBy(c: nat, k: nat): nat {
    if k == 0 then 0 else CopiedBy(c, k - 1) + Capacity(c, k - 1)
  }

  function Pow2(k: nat): nat {
    if k == 0 then 1 else 2 * Pow2(k - 1)
  }

  lemma {:induction false} CapacityClosed(c: nat, k: nat)
    ensures Capacity(c, k) == (c + 1) * Pow2(k) - 1
  {
    if k > 0 {
      CapacityClosed(c, k - 1);
      assert (c + 1) * (2 * Pow2(k - 1)) == 2 * ((c + 1) * Pow2(k - 1));
    }
  }

  lemma {:induction false} CopiedClosed(c: nat, k: nat)
    ensures CopiedBy(c, k) + c + k == Capacity(c, k)
  {
    if k > 0 {
      CopiedClosed(c, k - 1);
    }
  }

  // The buffer a push finds: grown when the height h has reached its end.
  function Room(words: seq<int>, h: int, junk: nat -> int): seq<int> {
    if h == |words| then words + seq(|words| + 1, i requires 0 <= i => junk(i)) else words
  }

  class Stack {
    var maxHeight: int
    var contents: array<int>
    const cell: array<int>
    const at: nat

    // What the calls so far have cost.
    ghost const initial: nat
    ghost var growths: nat
    ghost var pushes: nat
    ghost var copied: nat

    ghost predicate Valid()
      reads this, cell, contents
    {
      at < cell.Length && contents != cell && 0 < maxHeight == contents.Length
    }

    // The height is a height: between 0 and the capacity.
    ghost predicate InRange()
      requires Valid()
      reads this, cell, contents
    {
      0 <= cell[at] <= maxHeight
    }

    // The stacked values, the top last.
    ghost function Items(): seq<int>
      requires Valid() && InRange()
      reads this, cell, contents
    {
      contents[..cell[at]]
    }

    /** While the height is moved by this stack alone: the capacity and the copying are what the
        number of growths says, and the last growth was paid for by as many pushes. */
    ghost predicate Accounted()
      requires Valid()
      reads this, cell, contents
    {
      && initial > 0 && maxHeight == Capacity(initial, growths) && copied == CopiedBy(initial, growths)
      && pushes >= cell[at] && (growths > 0 ==> pushes > Capacity(initial, growths - 1))
    }

    // At most two words copied for every push.
    lemma CopyingIsCheap()
      requires Valid() && Accounted()
      ensures copied <= 2 * pushes
      ensures maxHeight == (initial + 1) * Pow2(growths) - 1
    {
      CapacityClosed(initial, growths);
      CopiedClosed(initial, growths);
    }

    constructor (height: array<int>, slot: nat, capacity: nat)
      requires slot < height.Length && height[slot] == 0 && capacity > 0
      ensures Valid() && InRange() && Items() == [] && Accounted() && fresh(contents)
      ensures cell == height && at == slot && maxHeight == capacity
      ensures forall i :: 0 <= i < capacity ==> contents[i] == 0
    {
      maxHeight := capacity;
      contents := new int[capacity](i => 0);
      cell, at := height, slot;
      initial, growths, pushes, copied := capacity, 0, 0, 0;
    }

    method Empty() returns (r: bool)
      requires Valid()
      ensures r <==> cell[at] == 0
    {
      return cell[at] == 0;
    }

    method Full() returns (r: bool)
      requires Valid()
      ensures r <==> cell[at] == maxHeight
    {
      return cell[at] == maxHeight;
    }

    // realloc: the old words are kept, the new ones hold whatever they held.
    method Grow(junk: nat -> int)
      requires Valid()
      modifies this
      ensures Valid() && fresh(contents) && maxHeight == 2 * old(maxHeight) + 1
      ensures contents[..] == old(contents[..]) + seq(old(maxHeight) + 1, i requires 0 <= i => junk(i))
      ensures growths == old(growths) + 1 && copied == old(copied + maxHeight) && pushes == old(pushes)
    {
      var newHeight := 2 * maxHeight + 1;
      var size, words := maxHeight, contents;
      var bigger := new int[newHeight];
      forall i | 0 <= i < newHeight {
        bigger[i] := if i < size then words[i] else junk(i - size);
      }
      growths, copied := growths + 1, copied + maxHeight;
      maxHeight, contents := newHeight, bigger;
    }

    method Push(v: int, granted: bool, junk: nat -> int) returns (failed: bool)
      requires Valid() && InRange()
      modifies this, cell, contents
      ensures Valid() && InRange() && (contents == old(contents) || fresh(contents))
      ensures failed <==> old(cell[at] == maxHeight) && !granted
      ensures failed ==> maxHeight == old(maxHeight) && contents[..] == old(contents[..]) && cell[..] == old(cell[..])
      ensures !failed ==> Items() == old(Items()) + [v] && cell[..] == old(cell[..])[at := old(cell[at]) + 1]
      ensures !failed ==> contents[..] == Room(old(contents[..]), old(cell[at]), junk)[old(cell[at]) := v]
      ensures maxHeight == (if !failed && old(cell[at] == maxHeight) then 2 * old(maxHeight) + 1 else old(maxHeight))
      ensures old(Accounted()) ==> Accounted()
    {
      var full := Full();
      if full {
        if !granted {
          return true;
        }
        Grow(junk);
      }
      contents[cell[at]] := v;
      cell[at] := cell[at] + 1;
      pushes := pushes + 1;
      return false;
    }

    // The result is meaningless when the stack was empty.
    method Pop() returns (failed: bool, v: int)
      requires Valid() && InRange()
      modifies cell
      ensures Valid() && InRange() && contents[..] == old(contents[..])
      ensures failed <==> old(cell[at]) == 0
      ensures failed ==> cell[..] == old(cell[..])
      ensures !failed ==> old(Items()) == Items() + [v] && cell[..] == old(cell[..])[at := old(cell[at]) - 1]
      ensures old(Accounted()) ==> Accounted()
    {
      v := 0;
      var empty := Empty();
      if empty {
        return true, v;
      }
      cell[at] := cell[at] - 1;
      return false, contents[cell[at]];
    }

    method Peek() returns (failed: bool, v: int)
      requires Valid() && InRange()
      ensures failed <==> cell[at] == 0
      ensures !failed ==> v == Items()[|Items()| - 1]
    {
      v := 0;
      var empty := Empty();
      if empty {
        return true, v;
      }
      return false, contents[cell[at] - 1];
    }
  }
}
