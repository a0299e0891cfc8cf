/** The balanced rotation schedule: each cycle shuffles the configurations once and rotates them block by block. */
module BenchmarkSchedule {

  datatype Block<C> = Block(number: nat, order: seq<C>)

  /** `cycle[offset:] + cycle[:offset]`. */
  function Rotate<C>(cycle: seq<C>, offset: nat): (r: seq<C>)
    requires offset <= |cycle|
    ensures |r| == |cycle|
  {
    cycle[offset..] + cycle[..offset]
  }

  /** `shuffle(start)` is what the generator seeded for the cycle at `start` makes of the configurations. */
  ghost predicate Shuffles<C(!new)>(shuffle: nat -> seq<C>, configs: seq<C>) {
    forall start: nat {:trigger shuffle(start)} :: multiset(shuffle(start)) == multiset(configs)
  }

  lemma ShuffleLength<C(!new)>(shuffle: nat -> seq<C>, configs: seq<C>, start: nat)
    requires Shuffles(shuffle, configs)
    ensures |shuffle(start)| == |configs|
  {
    assert |multiset(shuffle(start))| == |multiset(configs)|;
  }

  function CycleStart(i: nat, n: nat): (start: nat)
    requires n > 0
    ensures start <= i
  {
    i - i % n
  }

  /** What the block at index `i` has to be: its cycle starts at the last multiple of the cycle length. */
  ghost predicate BlockAt<C(!new)>(shuffle: nat -> seq<C>, n: nat, block: Block<C>, i: nat)
    requires n > 0
  {
    && block.number == i + 1
    && |shuffle(CycleStart(i, n))| == n
    && block.order == Rotate(shuffle(CycleStart(i, n)), i % n)
  }

  ghost predicate IsSchedule<C(!new)>(shuffle: nat -> seq<C>, n: nat, blocks: seq<Block<C>>)
    requires n > 0
  {
    forall i | 0 <= i < |blocks| :: BlockAt(shuffle, n, blocks[i], i)
  }

  lemma NextCycle(start: nat, offset: nat, n: nat)
    requires n > 0 && start % n == 0 && offset < n
    ensures (start + offset) % n == offset
    ensures (start + n) % n == 0
  {
    var q := start / n;
    assert start == q * n;
    assert start + offset == q * n + offset;
    assert start + n == (q + 1) * n + 0;
    Remainder(q, offset, n);
    Remainder(q + 1, 0, n);
  }

  lemma Remainder(q: nat, r: nat, n: nat)
    requires r < n
    ensures (q * n + r) % n == r
  {
    var x := q * n + r;
    assert x == (x / n) * n + x % n;
    assert (x / n - q) * n == r - x % n;
    LargeMultiple(x / n - q, n);
  }

  lemma LargeMultiple(d: int, n: int)
    requires n > 0
    ensures d != 0 ==> d * n >= n || d * n <= -n
  {
    if d >= 1 {
      assert (d - 1) * n >= 0;
    } else if d <= -1 {
      assert (-1 - d) * n >= 0;
    }
  }

  /** `_balanced_blocks`. */
  method BalancedBlocks<C(!new)>(blockCount: nat, configs: seq<C>, shuffle: nat -> seq<C>)
      returns (blocks: seq<Block<C>>)
    requires configs != [] && Shuffles(shuffle, configs)
    ensures |blocks| == blockCount
    ensures IsSchedule(shuffle, |configs|, blocks)
  {
    var n := |configs|;
    blocks := [];
    var cycleStart := 0;
    while cycleStart < blockCount
      invariant cycleStart % n == 0
      invariant |blocks| == if cycleStart <= blockCount then cycleStart else blockCount
      invariant IsSchedule(shuffle, n, blocks)
      decreases blockCount - cycleStart
    {
      var cycle := shuffle(cycleStart);
      ShuffleLength(shuffle, configs, cycleStart);
      var count := if n <= blockCount - cycleStart then n else blockCount - cycleStart;
      for offset := 0 to count
        invariant |blocks| == cycleStart + offset
        invariant IsSchedule(shuffle, n, blocks)
      {
        NextCycle(cycleStart, offset, n);
        blocks := blocks + [Block(cycleStart + offset + 1, Rotate(cycle, offset))];
      }
      NextCycle(cycleStart, 0, n);
      cycleStart := cycleStart + n;
    }
  }

  /** Every block runs every configuration once, and the blocks are numbered 1, 2, 3, … */
  lemma EveryBlockIsAPermutation<C(!new)>(shuffle: nat -> seq<C>, configs: seq<C>, blocks: seq<Block<C>>, i: nat)
    requires configs != [] && Shuffles(shuffle, configs)
    requires IsSchedule(shuffle, |configs|, blocks) && i < |blocks|
    ensures blocks[i].number == i + 1
    ensures multiset(blocks[i].order) == multiset(configs)
  {
    var n := |configs|;
    assert BlockAt(shuffle, n, blocks[i], i);
    RotateKeepsElements(shuffle(CycleStart(i, n)), i % n);
  }

  lemma RotateKeepsElements<C>(cycle: seq<C>, offset: nat)
    requires offset <= |cycle|
    ensures multiset(Rotate(cycle, offset)) == multiset(cycle)
  {
    assert cycle == cycle[..offset] + cycle[offset..];
  }

  ghost predicate Reach<C>(blocks: seq<Block<C>>, position: nat) {
    forall i | 0 <= i < |blocks| :: position < |blocks[i].order|
  }

  /** What stands in position `position` of consecutive blocks. */
  ghost function Column<C>(blocks: seq<Block<C>>, position: nat): (column: seq<C>)
    requires Reach(blocks, position)
  {
    seq(|blocks|, i requires 0 <= i < |blocks| => blocks[i].order[position])
  }

  /** `part` runs through one shuffled list of the configurations, rotated once per block. */
  ghost predicate Turns<C(!new)>(part: seq<Block<C>>, configs: seq<C>) {
    exists cycle :: multiset(cycle) == multiset(configs) && TurnsThrough(part, cycle)
  }

  ghost predicate TurnsThrough<C>(part: seq<Block<C>>, cycle: seq<C>) {
    |part| == |cycle| && forall o | 0 <= o < |part| :: part[o].order == Rotate(cycle, o)
  }

  /** `part` consists of `cycles` whole cycles. */
  ghost predicate WholeCycles<C(!new)>(part: seq<Block<C>>, configs: seq<C>, cycles: nat) {
    if cycles == 0 then part == []
    else |configs| <= |part| && Turns(part[..|configs|], configs) && WholeCycles(part[|configs|..], configs, cycles - 1)
  }

  lemma CycleTurns<C(!new)>(shuffle: nat -> seq<C>, configs: seq<C>, blocks: seq<Block<C>>, start: nat)
    requires configs != [] && Shuffles(shuffle, configs) && IsSchedule(shuffle, |configs|, blocks)
    requires start % |configs| == 0 && start + |configs| <= |blocks|
    ensures Turns(blocks[start..start + |configs|], configs)
  {
    var n := |configs|;
    ShuffleLength(shuffle, configs, start);
    forall o | 0 <= o < n
      ensures blocks[start + o].order == Rotate(shuffle(start), o)
    {
      NextCycle(start, o, n);
      assert BlockAt(shuffle, n, blocks[start + o], start + o);
    }
    assert TurnsThrough(blocks[start..start + n], shuffle(start));
  }

  lemma {:induction false} ScheduleTurns<C(!new)>(shuffle: nat -> seq<C>, configs: seq<C>, blocks: seq<Block<C>>,
                                                  start: nat, cycles: nat, end: nat)
    requires configs != [] && Shuffles(shuffle, configs) && IsSchedule(shuffle, |configs|, blocks)
    requires start % |configs| == 0 && end == start + cycles * |configs| <= |blocks|
    ensures start <= end
    ensures WholeCycles(blocks[start..end], configs, cycles)
    decreases cycles
  {
    if cycles == 0 {
    } else {
      var n := |configs|;
      OneMore(cycles, n);
      NextCycle(start, 0, n);
      CycleTurns(shuffle, configs, blocks, start);
      ScheduleTurns(shuffle, configs, blocks, start + n, cycles - 1, end);
      assert blocks[start..end][..n] == blocks[start..start + n];
      assert blocks[start..end][n..] == blocks[start + n..end];
    }
  }

  /** Over one cycle, a position of the orders reads the shuffled list itself, rotated by that position. */
  lemma ColumnTurns<C(!new)>(part: seq<Block<C>>, configs: seq<C>, position: nat)
    requires Turns(part, configs) && position < |configs|
    ensures |part| == |configs| && Reach(part, position)
    ensures multiset(Column(part, position)) == multiset(configs)
  {
    var cycle :| multiset(cycle) == multiset(configs) && TurnsThrough(part, cycle);
    assert |multiset(cycle)| == |multiset(configs)|;
    assert Column(part, position) == Rotate(cycle, position);
    RotateKeepsElements(cycle, position);
  }

  lemma {:induction false} ColumnsTurn<C(!new)>(part: seq<Block<C>>, configs: seq<C>, cycles: nat, position: nat,
      config: C)
    requires WholeCycles(part, configs, cycles) && position < |configs|
    ensures Reach(part, position)
    ensures multiset(Column(part, position))[config] == cycles * multiset(configs)[config]
    decreases cycles
  {
    if cycles == 0 {
    } else {
      var first, rest := part[..|configs|], part[|configs|..];
      ColumnTurns(first, configs, position);
      ColumnsTurn(rest, configs, cycles - 1, position, config);
      ColumnsJoin(first, rest, position);
      assert part == first + rest;
      OneMore(cycles, multiset(configs)[config]);
    }
  }

  lemma ColumnsJoin<C>(first: seq<Block<C>>, rest: seq<Block<C>>, position: nat)
    requires Reach(first, position) && Reach(rest, position)
    ensures Reach(first + rest, position)
    ensures multiset(Column(first + rest, position)) == multiset(Column(first, position))
            + multiset(Column(rest, position))
  {
    assert Column(first + rest, position) == Column(first, position) + Column(rest, position);
  }

  lemma OneMore(k: nat, x: nat)
    requires k > 0
    ensures k * x == x + (k - 1) * x
    ensures (k - 1) * x >= 0
  {
  }

  /**
   * Over any whole number of cycles, every configuration stands in every position equally often: once a cycle for
   * each time the configuration is listed.
   */
  lemma EveryPositionIsFair<C(!new)>(shuffle: nat -> seq<C>, configs: seq<C>, blocks: seq<Block<C>>,
                                     start: nat, cycles: nat, end: nat, position: nat, config: C)
    requires configs != [] && Shuffles(shuffle, configs) && IsSchedule(shuffle, |configs|, blocks)
    requires start % |configs| == 0 && end == start + cycles * |configs| <= |blocks| && position < |configs|
    ensures start <= end && Reach(blocks[start..end], position)
    ensures multiset(Column(blocks[start..end], position))[config] == cycles * multiset(configs)[config]
  {
    ScheduleTurns(shuffle, configs, blocks, start, cycles, end);
    ColumnsTurn(blocks[start..end], configs, cycles, position, config);
  }
}
