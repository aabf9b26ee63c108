/** collect.h: a list of heap blocks with twenty-five places each, linked both ways, that must be
    no different from a sequence. */
module Collect {
  import opened Sequences

  const MAXT := 25

  /** An element on the heap, the clone of a value. */
  class Cell<T> {
    const value: T

    constructor (value: T)
      ensures this.value == value
    {
      this.value := value;
    }
  }

  /** cBlock.  Its places are inside it, so nothing else refers to them. */
  class Block<T> {
    var item: seq<Cell?<T>>
    var prev: Block?<T>
    var next: Block?<T>

    constructor (p: Block?<T>, n: Block?<T>)
      ensures prev == p && next == n && item == seq(MAXT, i => null)
    {
      prev, next, item := p, n, seq(MAXT, i => null);
    }
  }

  /** k blocks are as many as n elements take; the first block is always there. */
  predicate Enough(n: nat, k: nat) {
    if n == 0 then k == 1 else MAXT * (k - 1) < n <= MAXT * k
  }

  /** That is one block, or the number of elements divided by twenty-five and rounded up. */
  lemma EnoughIsCeiling(n: nat, k: nat)
    ensures Enough(n, k) <==> k == if n == 0 then 1 else (n + MAXT - 1) / MAXT
  {
  }

  function Values<T>(cells: seq<Cell<T>>): (s: seq<T>)
    ensures |s| == |cells|
  {
    seq(|cells|, i requires 0 <= i < |cells| => cells[i].value)
  }

  ghost predicate Distinct<A>(s: seq<A>) {
    forall i, j :: 0 <= i < j < |s| ==> s[i] != s[j]
  }

  lemma DistinctWith<A>(s: seq<A>, a: A)
    requires Distinct(s) && a !in s
    ensures Distinct(s + [a])
  {
  }

  lemma DistinctExcept<A>(s: seq<A>, p: nat, a: A)
    requires Distinct(s) && a !in s && p < |s|
    ensures Distinct(s[p := a]) && s[p] !in s[p := a]
  {
  }

  lemma IsOnce<A>(s: seq<A>, p: nat)
    requires Distinct(s) && p < |s|
    ensures forall i :: 0 <= i < |s| && i != p ==> s[i] != s[p]
  {
  }

  lemma ValuesExcept<T>(cells: seq<Cell<T>>, p: nat, cell: Cell<T>)
    requires p < |cells|
    ensures Values(cells[p := cell]) == Values(cells)[p := cell.value]
  {
  }

  lemma LastIsOnce<A>(s: seq<A>)
    requires Distinct(s)
    ensures forall i :: 0 <= i < |s| - 1 ==> s[i] != s[|s| - 1]
  {
  }

  lemma ValuesWith<T>(cells: seq<Cell<T>>, cell: Cell<T>)
    ensures Values(cells + [cell]) == Values(cells) + [cell.value]
  {
  }

  /** When one more element needs a block of its own, and where it goes. */
  lemma EnoughWith(n: nat, k: nat)
    requires Enough(n, k)
    ensures if n > 0 && n % MAXT == 0 then Enough(n + 1, k + 1) && n == MAXT * k
            else Enough(n + 1, k) && n == MAXT * (k - 1) + n % MAXT
  {
  }

  class SnmpCollection<T(==)> {
    var count: nat
    const data: Block<T>
    ghost var blocks: seq<Block<T>>
    ghost var cells: seq<Cell<T>>

    ghost function Nodes(): set<Block<T>>
      reads this
    {
      set b | b in blocks
    }

    ghost predicate Apart(c: SnmpCollection<T>)
      reads this, c
    {
      c != this && c.Nodes() !! Nodes()
    }

    /** The chain of blocks, each with the right neighbours. */
    ghost predicate Linked()
      reads this, blocks
    {
      && blocks != [] && blocks[0] == data && Distinct(blocks)
      && forall i :: 0 <= i < |blocks| ==> LinkedAt(i)
    }

    ghost predicate LinkedAt(i: nat)
      requires i < |blocks|
      reads this, blocks
    {
      && blocks[i].prev == (if i == 0 then null else blocks[i - 1])
      && blocks[i].next == (if i == |blocks| - 1 then null else blocks[i + 1])
      && |blocks[i].item| == MAXT
    }

    /** Place j of block b holds element 25b + j, and no element is in two places. */
    ghost predicate Placed()
      reads this, blocks
    {
      && Enough(count, |blocks|) && |cells| == count && Distinct(cells)
      && forall b :: 0 <= b < |blocks| ==> PlacedAt(b)
    }

    ghost predicate PlacedAt(b: nat)
      requires b < |blocks|
      reads this, blocks
    {
      forall j :: 0 <= j < |blocks[b].item| && MAXT * b + j < |cells| ==> blocks[b].item[j] == cells[MAXT * b + j]
    }

    ghost predicate Valid()
      reads this, blocks
    {
      Linked() && Placed()
    }

    ghost function Contents(): (s: seq<T>)
      reads this
    {
      Values(cells)
    }

    constructor ()
      ensures Valid() && fresh(this) && fresh(Nodes()) && Contents() == []
    {
      count, cells := 0, [];
      data := new Block(null, null);
      new;
      blocks := [data];
    }

    constructor Single(t: T)
      ensures Valid() && fresh(this) && fresh(Nodes()) && Contents() == [t]
    {
      count := 1;
      var cell := new Cell(t);
      data := new Block(null, null);
      new;
      data.item := data.item[0 := cell];
      cells, blocks := [cell], [data];
    }

    /** The copy constructor. */
    constructor Copy(c: SnmpCollection<T>)
      requires c.Valid()
      ensures Valid() && fresh(this) && fresh(Nodes()) && c.Valid()
      ensures Contents() == c.Contents()
    {
      count, cells := 0, [];
      data := new Block(null, null);
      new;
      blocks := [data];
      if c.count != 0 {
        LoadUp(c);
      }
    }

    method Size() returns (n: nat)
      requires Valid()
      ensures n == |Contents()|
    {
      n := count;
    }

    lemma Ends()
      requires Valid()
      ensures |blocks| > 0 && blocks[0] == data && |cells| == count == |Contents()|
      ensures count == 0 ==> blocks == [data]
      ensures data in Nodes() && blocks[|blocks| - 1] in Nodes()
    {
    }

    // -------------------------------------------------------------------------------------------
    // Walking along the blocks.
    // -------------------------------------------------------------------------------------------

    method BlockAt(bn: nat) returns (current: Block<T>)
      requires Valid() && bn < |blocks|
      ensures current == blocks[bn]
    {
      current := data;
      for z := 0 to bn
        invariant current == blocks[z]
      {
        assert LinkedAt(z);
        current := current.next;
      }
    }

    method LastBlock() returns (current: Block<T>)
      requires Valid()
      ensures current == blocks[|blocks| - 1]
    {
      current := data;
      ghost var z := 0;
      while current.next != null
        invariant 0 <= z < |blocks| && current == blocks[z] && LinkedAt(z)
        decreases |blocks| - z
      {
        current := current.next;
        z := z + 1;
        assert LinkedAt(z);
      }
    }

    // -------------------------------------------------------------------------------------------
    // Adding at the end.
    // -------------------------------------------------------------------------------------------

    /** What adding t at the end does: no element moves, and every new block is fresh. */
    twostate predicate Grown(t: T)
      reads this
    {
      && Contents() == old(Contents()) + [t]
      && count == old(count) + 1 && |cells| > 0 && cells[..|cells| - 1] == old(cells)
      && fresh(cells[|cells| - 1])
      && |blocks| >= |old(blocks)| && blocks[..|old(blocks)|] == old(blocks)
      && fresh(Nodes() - old(Nodes()))
    }

    method PutInNewBlock(current: Block<T>, t: T) returns (add: Block<T>)
      requires Valid() && current == blocks[|blocks| - 1] && count > 0 && count % MAXT == 0
      modifies this, current
      ensures Valid() && Grown(t) && add == blocks[|blocks| - 1]
    {
      hide Distinct, Values, Enough;
      LastIsOnce(blocks);
      assert LinkedAt(|blocks| - 1);
      add := new Block(current, null);
      current.next := add;
      var cell := new Cell(t);
      add.item := add.item[0 := cell];
      DistinctWith(blocks, add);
      DistinctWith(cells, cell);
      ValuesWith(cells, cell);
      EnoughWith(count, |blocks|);
      count := count + 1;
      blocks, cells := blocks + [add], cells + [cell];
      forall i | 0 <= i < |blocks|
        ensures LinkedAt(i)
      {
        assert i < |old(blocks)| ==> old(LinkedAt(i));
      }
      forall b | 0 <= b < |blocks|
        ensures PlacedAt(b)
      {
        assert b < |old(blocks)| ==> old(PlacedAt(b)) && old(LinkedAt(b));
      }
    }

    method PutInLast(current: Block<T>, cn: nat, t: T)
      requires Valid() && current == blocks[|blocks| - 1] && cn == count % MAXT && (count == 0 || cn > 0)
      modifies this, current
      ensures Valid() && Grown(t) && blocks == old(blocks)
    {
      hide Distinct, Values, Enough;
      LastIsOnce(blocks);
      assert LinkedAt(|blocks| - 1);
      var cell := new Cell(t);
      current.item := current.item[cn := cell];
      DistinctWith(cells, cell);
      ValuesWith(cells, cell);
      EnoughWith(count, |blocks|);
      count := count + 1;
      cells := cells + [cell];
      forall i | 0 <= i < |blocks|
        ensures LinkedAt(i)
      {
        assert i < |old(blocks)| ==> old(LinkedAt(i));
      }
      forall b | 0 <= b < |blocks|
        ensures PlacedAt(b)
      {
        assert b < |old(blocks)| ==> old(PlacedAt(b)) && old(LinkedAt(b));
      }
    }

    /** operator += */
    method Append(t: T)
      requires Valid()
      modifies this, Nodes()
      ensures Valid() && Grown(t)
    {
      var cn := count % MAXT;
      var current := LastBlock();
      if count > 0 && count % MAXT == 0 {
        current := PutInNewBlock(current, t);
      } else {
        PutInLast(current, cn, t);
      }
    }

    /** The loop of the copy constructor and of the assignment. */
    method LoadUp(c: SnmpCollection<T>)
      requires Valid() && count == 0 && c.Valid() && Apart(c)
      modifies this, Nodes()
      ensures Valid() && Contents() == c.Contents()
      ensures fresh(Nodes() - old(Nodes()))
    {
      hide Linked, Placed, Distinct, Values;
      Ends();
      c.Ends();
      var current := data;
      var cn := 0;
      while count < c.count
        invariant |blocks| > 0 && |Contents()| == count && |c.Contents()| == c.count
        invariant Valid() && c.Valid() && count <= c.count
        invariant current == blocks[|blocks| - 1] && cn == (if count == 0 then 0 else (count - 1) % MAXT + 1)
        invariant fresh(Nodes() - old(Nodes()))
        invariant Contents() == c.Contents()[..count]
        decreases c.count - count
      {
        var tmp := c.Element(count);
        if cn >= MAXT {
          current := PutInNewBlock(current, tmp);
          cn := 0;
        } else {
          PutInLast(current, cn, tmp);
        }
        Ends();
        cn := cn + 1;
      }
    }

    // -------------------------------------------------------------------------------------------
    // Access.
    // -------------------------------------------------------------------------------------------

    /** Where element p is. */
    lemma Located(p: nat)
      requires Valid() && p < count
      ensures p / MAXT < |blocks| && |blocks[p / MAXT].item| == MAXT && blocks[p / MAXT].item[p % MAXT] == cells[p]
    {
      assert LinkedAt(p / MAXT) && PlacedAt(p / MAXT);
    }

    /** The element at a place that holds one. */
    method Element(p: nat) returns (t: T)
      requires Valid() && p < count
      ensures t == Contents()[p]
    {
      Located(p);
      var current := BlockAt(p / MAXT);
      t := current.item[p % MAXT].value;
    }

    /** operator []: outside, an empty element. */
    method At(p: int, nothing: T) returns (t: T)
      requires Valid()
      ensures t == if 0 <= p < |Contents()| then Contents()[p] else nothing
    {
      if p < count && p >= 0 {
        t := Element(p);
      } else {
        t := nothing;
      }
    }

    /** get_element.  It refuses what is before the first element or beyond the place after the last;
        that place itself must not be asked for. */
    method GetElement(p: int, before: T) returns (ret: int, t: T)
      requires Valid() && p != count
      ensures if 0 <= p < |Contents()| then ret == 0 && t == Contents()[p] else ret == -1 && t == before
    {
      if p < 0 || p > count {
        return -1, before;
      }
      t := Element(p);
      ret := 0;
    }

    /** set_element; the element that was there is freed. */
    method SetElement(t: T, p: int) returns (ret: int, ghost freed: seq<Cell<T>>)
      requires Valid() && p != count
      modifies this, Nodes()
      ensures Valid() && blocks == old(blocks)
      ensures if 0 <= p < |old(Contents())|
              then ret == 0 && Contents() == old(Contents())[p := t] && freed == [old(cells)[p]] && freed[0] !in cells
              else ret == -1 && Contents() == old(Contents()) && freed == []
    {
      if p < 0 || p > count {
        return -1, [];
      }
      hide Distinct, Values, Enough;
      Located(p);
      var current := BlockAt(p / MAXT);
      var cell := new Cell(t);
      freed := [cells[p]];
      current.item := current.item[p % MAXT := cell];
      DistinctExcept(cells, p, cell);
      IsOnce(blocks, p / MAXT);
      ValuesExcept(cells, p, cell);
      cells := cells[p := cell];
      forall i | 0 <= i < |blocks|
        ensures LinkedAt(i) && PlacedAt(i)
      {
        assert old(LinkedAt(i)) && old(PlacedAt(i));
      }
      ret := 0;
    }

    /** find: the first place where the element is. */
    method Find(t: T) returns (found: bool, pos: nat)
      requires Valid()
      ensures found <==> t in Contents()
      ensures found ==> pos < |Contents()| && Contents()[pos] == t && t !in Contents()[..pos]
    {
      pos := 0;
      for z := 0 to count
        invariant t !in Contents()[..z]
      {
        var temp := Element(z);
        if temp == t {
          return true, z;
        }
      }
      found := false;
    }

    // -------------------------------------------------------------------------------------------
    // Freeing.
    // -------------------------------------------------------------------------------------------

    /** clear, and with it the destructor.  What is freed: each element once, then each block but the
        first once, last block first. */
    method Clear() returns (ghost freedCells: seq<Cell<T>>, ghost freedBlocks: seq<Block<T>>)
      requires Valid()
      modifies this, Nodes()
      ensures Valid() && Contents() == [] && blocks == [data]
      ensures freedCells == old(cells) && Distinct(freedCells)
      ensures freedBlocks == Reverse(old(blocks)[1..]) && Distinct(freedBlocks) && data !in freedBlocks
    {
      freedCells, freedBlocks := [], [];
      Ends();
      if count == 0 {
        assert Reverse(blocks[1..]) == [];
        return;
      }
      var current;
      ghost var bn;
      freedCells, current, bn := FreeElements();
      freedBlocks := FreeBlocks(current, bn);
      assert LinkedAt(0);
      count := 0;
      data.next := null;
      data.prev := null;
      blocks, cells := [data], [];
      assert LinkedAt(0) && PlacedAt(0);
    }

    /** The first loop of clear: along the blocks, deleting the element at every place. */
    method FreeElements() returns (ghost freed: seq<Cell<T>>, current: Block<T>, ghost bn: nat)
      requires Valid()
      ensures freed == cells && bn < |blocks| && current == blocks[bn]
    {
      freed, current, bn := [], data, 0;
      var z, cn := 0, 0;
      while z < count
        invariant 0 <= z <= count && 0 <= bn < |blocks| && current == blocks[bn]
        invariant 0 <= cn <= MAXT && z == bn * MAXT + cn
        invariant freed == cells[..z]
      {
        if cn >= MAXT {
          cn := 0;
          assert LinkedAt(bn);
          current := current.next;
          bn := bn + 1;
        }
        Located(z);
        assert z / MAXT == bn && z % MAXT == cn;
        freed := freed + [current.item[cn]];
        cn := cn + 1;
        z := z + 1;
      }
    }

    /** The end of clear: to the last block, and back.  No block is touched after it has been freed. */
    method FreeBlocks(start: Block<T>, ghost bn: nat) returns (ghost freed: seq<Block<T>>)
      requires Valid() && bn < |blocks| && start == blocks[bn]
      ensures freed == Reverse(blocks[1..]) && Distinct(freed) && data !in freed
    {
      var current := start;
      ghost var k := bn;
      while current.next != null
        invariant 0 <= k < |blocks| && current == blocks[k] && LinkedAt(k)
        decreases |blocks| - k
      {
        current := current.next;
        k := k + 1;
        assert LinkedAt(k);
      }
      freed := [];
      while current.prev != null
        invariant 0 <= k < |blocks| && current == blocks[k] && LinkedAt(k)
        invariant freed == Reverse(blocks[k + 1..]) && current !in freed
        decreases k
      {
        assert LinkedAt(k - 1);
        current := current.prev;
        freed := freed + [current.next];
        k := k - 1;
      }
    }

    /** operator =; the blocks and elements there were are freed, unless the two are the same. */
    method Assign(c: SnmpCollection<T>)
      requires Valid() && c.Valid() && (c == this || Apart(c))
      modifies this, Nodes()
      ensures Valid() && Contents() == old(c.Contents()) && c.Valid() && c.Contents() == old(c.Contents())
      ensures fresh(Nodes() - old(Nodes()))
    {
      if this == c {
        return;
      }
      ghost var fc, fb := Clear();
      if c.count == 0 {
        assert c.Contents() == [];
        return;
      }
      LoadUp(c);
    }

    /** remove: only the first of equal elements goes, and the others stay in order. */
    method Remove(t: T) returns (found: bool)
      requires Valid()
      modifies this, Nodes()
      ensures Valid() && (found <==> t in old(Contents()))
      ensures Contents() == WithoutFirst(old(Contents()), t)
    {
      hide Linked, Placed, Distinct, Values;
      var pos;
      found, pos := Find(t);
      if found {
        WithoutFirstIsAt(Contents(), t, pos);
        var newCollection := AllBut(pos);
        Assign(newCollection);
        ghost var fc, fb := newCollection.Clear();
      } else {
        WithoutAbsent(Contents(), t);
      }
    }

    /** A new collection of all elements but the one at pos. */
    method AllBut(pos: nat) returns (newCollection: SnmpCollection<T>)
      requires Valid() && pos < |Contents()|
      ensures newCollection.Valid() && fresh(newCollection) && fresh(newCollection.Nodes())
      ensures newCollection.Contents() == Contents()[..pos] + Contents()[pos + 1..]
    {
      hide Linked, Placed, Distinct, Values;
      Ends();
      newCollection := new SnmpCollection<T>();
      for z := 0 to count
        invariant newCollection.Valid() && fresh(newCollection) && fresh(newCollection.Nodes())
        invariant newCollection.Contents() == Skipped(Contents(), pos, z)
      {
        if z != pos {
          var item := Element(z);
          newCollection.Append(item);
        }
      }
    }
  }

  /** The first z elements without the one at pos. */
  function Skipped<T>(s: seq<T>, pos: nat, z: nat): seq<T>
    requires pos < |s| && z <= |s|
  {
    if z <= pos then s[..z] else s[..pos] + s[pos + 1..z]
  }

  /** A sequence without the first occurrence of an element. */
  function WithoutFirst<T(==)>(s: seq<T>, t: T): seq<T> {
    if s == [] then [] else if s[0] == t then s[1..] else [s[0]] + WithoutFirst(s[1..], t)
  }

  lemma {:induction false} WithoutFirstIsAt<T>(s: seq<T>, t: T, pos: nat)
    requires pos < |s| && s[pos] == t && t !in s[..pos]
    ensures WithoutFirst(s, t) == s[..pos] + s[pos + 1..]
  {
    if pos > 0 {
      assert s[..pos][0] == s[0];
      assert s[1..][..pos - 1] == s[..pos][1..];
      WithoutFirstIsAt(s[1..], t, pos - 1);
    }
  }

  lemma {:induction false} WithoutAbsent<T>(s: seq<T>, t: T)
    requires t !in s
    ensures WithoutFirst(s, t) == s
  {
    if s != [] {
      WithoutAbsent(s[1..], t);
    }
  }

  /** Removing takes away exactly one occurrence, and of that element only. */
  lemma {:induction false} RemovesOne<T>(s: seq<T>, t: T)
    ensures multiset(WithoutFirst(s, t)) == multiset(s) - multiset{t}
  {
    if s != [] {
      assert s == [s[0]] + s[1..];
      if s[0] != t {
        RemovesOne(s[1..], t);
      }
    }
  }
}
