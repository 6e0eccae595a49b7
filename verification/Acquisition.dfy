/**
 The MCP320x acquisition thread against the buffer size its request was checked for.

 A channel mask is the set of its bit positions. After each sampling the ADC context decides
 (from the caller's callback) to repeat it, to go on, or to finish; with no callback it goes on.
 No SPI transfer fails.
 */
module Acquisition {
  const RESOLUTION := 12
  const ENOTSUP := 134
  const ENOMEM := 12

  datatype Action = Repeat | Continue | Finish

  /** What each run of the converter would read, channel by channel. */
  type Readings = seq<seq<int>>

  function ReadAt(read: Readings, run: nat, c: nat): int {
    if run < |read| && c < |read[run]| then read[run][c] else 0
  }

  type Mask = m: set<nat> | forall b :: b in m ==> b < 32

  /** Bits of m below n. */
  function Below(m: Mask, n: nat): Mask {
    set b | b in m && b < n
  }

  lemma BelowStep(m: Mask, n: nat)
    ensures |Below(m, n + 1)| == |Below(m, n)| + if n in m then 1 else 0
  {
    if n in m {
      assert Below(m, n + 1) == Below(m, n) + {n};
    } else {
      assert Below(m, n + 1) == Below(m, n);
    }
  }

  lemma BelowAll(m: Mask, n: nat)
    requires forall b :: b in m ==> b < n
    ensures Below(m, n) == m
  {
  }

  predicate IsLeast(m: Mask, c: nat) {
    c in m && forall b :: b in m ==> c <= b
  }

  lemma {:induction false} HasLeast(m: Mask)
    requires m != {}
    ensures exists c :: IsLeast(m, c)
    decreases m
  {
    var c :| c in m;
    if !IsLeast(m, c) {
      var b :| b in m && b < c;
      assert b in m - {c};
      HasLeast(m - {c});
      var d :| IsLeast(m - {c}, d);
      forall x | x in m ensures d <= x { if x != c { assert x in m - {c}; } }
      assert IsLeast(m, d);
    }
  }

  /** The channels of a mask in ascending order. */
  ghost function Ascending(m: Mask): seq<nat>
    decreases m
  {
    if m == {} then []
    else
      HasLeast(m);
      var c :| IsLeast(m, c);
      [c] + Ascending(m - {c})
  }

  lemma AscendingFirst(m: Mask, c: nat)
    requires IsLeast(m, c)
    ensures Ascending(m) == [c] + Ascending(m - {c})
  {
  }

  lemma {:induction false} AscendingMembers(m: Mask)
    ensures |Ascending(m)| == |m| && forall c :: c in Ascending(m) <==> c in m
    decreases m
  {
    if m != {} {
      HasLeast(m);
      var c :| IsLeast(m, c);
      AscendingFirst(m, c);
      AscendingMembers(m - {c});
      assert m == (m - {c}) + {c};
    }
  }

  lemma {:induction false} AscendingIncreases(m: Mask)
    ensures var s := Ascending(m); forall i, j :: 0 <= i < j < |s| ==> s[i] < s[j]
    decreases m
  {
    if m != {} {
      HasLeast(m);
      var c :| IsLeast(m, c);
      AscendingFirst(m, c);
      AscendingIncreases(m - {c});
      AscendingMembers(m - {c});
      var rest := Ascending(m - {c});
      forall k | 0 <= k < |rest|
        ensures rest[k] > c
      {
        assert rest[k] in rest;
        assert rest[k] in m - {c};
      }
    }
  }

  /** mcp320x_validate_buffer_size: the top-down mask loop. */
  method ValidateBufferSize(channels: nat, mask: Mask, extra: nat, bufferSize: nat) returns (ret: int)
    requires 1 <= channels <= 8
    ensures ret == if bufferSize < 2 * |set b | b in mask && b < channels| * (1 + extra) then -ENOMEM else 0
  {
    assert Below(mask, channels) == set b | b in mask && b < channels;
    var count, bit := 0, channels;
    while bit > 0
      invariant bit <= channels && count + |Below(mask, bit)| == |Below(mask, channels)|
    {
      bit := bit - 1;
      BelowStep(mask, bit);
      if bit in mask {
        count := count + 1;
      }
    }
    assert Below(mask, 0) == {};
    ret := if bufferSize < 2 * count * (1 + extra) then -ENOMEM else 0;
  }

  /** find_msb_set: one more than the highest bit, 0 for an empty mask. */
  method FindMsbSet(mask: Mask) returns (n: nat)
    ensures forall b :: b in mask ==> b < n
    ensures n > 0 ==> n - 1 in mask
  {
    n := 32;
    while n > 0 && n - 1 !in mask
      invariant forall b :: b in mask ==> b < n
    {
      n := n - 1;
    }
  }

  /** The checks of mcp320x_start_read: accepted exactly when every cell written later has room. */
  method CheckRequest(channels: nat, mask: Mask, resolution: int, extra: nat, bufferSize: nat) returns (ret: int)
    requires 1 <= channels <= 8
    ensures ret == 0 <==> resolution == RESOLUTION && (forall b :: b in mask ==> b < channels)
                          && 2 * |mask| * (1 + extra) <= bufferSize
  {
    if resolution != RESOLUTION {
      return -ENOTSUP;
    }
    var msb := FindMsbSet(mask);
    if msb > channels {
      return -ENOTSUP;
    }
    BelowAll(mask, channels);
    ret := ValidateBufferSize(channels, mask, extra, bufferSize);
  }

  // ---- Layout -----------------------------------------------------------

  /** One sampling: a reading per channel, ascending. */
  function Row(channels: seq<nat>, read: Readings, run: nat): (row: seq<int>)
    ensures |row| == |channels|
    ensures forall i :: 0 <= i < |channels| ==> row[i] == ReadAt(read, run, channels[i])
  {
    if channels == [] then [] else [ReadAt(read, run, channels[0])] + Row(channels[1..], read, run)
  }

  function Decision(actions: seq<Action>, run: nat): Action {
    if run < |actions| then actions[run] else Continue
  }

  /** The runs whose readings stay: the last one of each sampling. */
  function Committed(actions: seq<Action>, extra: nat, run: nat, index: nat): seq<nat>
    decreases if run < |actions| then |actions| - run else 0, extra - index
  {
    match Decision(actions, run)
    case Repeat => Committed(actions, extra, run + 1, index)
    case Continue => if index < extra then [run] + Committed(actions, extra, run + 1, index + 1) else [run]
    case Finish => [run]
  }

  ghost function Rows(channels: seq<nat>, read: Readings, runs: seq<nat>): seq<int> {
    if runs == [] then [] else Row(channels, read, runs[0]) + Rows(channels, read, runs[1..])
  }

  lemma {:induction false} RowsAppend(channels: seq<nat>, read: Readings, a: seq<nat>, b: seq<nat>)
    ensures Rows(channels, read, a + b) == Rows(channels, read, a) + Rows(channels, read, b)
  {
    if a == [] {
      assert a + b == b;
    } else {
      assert (a + b)[1..] == a[1..] + b;
      RowsAppend(channels, read, a[1..], b);
    }
  }

  lemma {:induction false} RowsLength(channels: seq<nat>, read: Readings, runs: seq<nat>)
    ensures |Rows(channels, read, runs)| == |channels| * |runs|
  {
    if runs != [] {
      RowsLength(channels, read, runs[1..]);
      assert |channels| * |runs| == |channels| + |channels| * |runs[1..]| by {
        Distribute(|channels|, |runs[1..]|);
      }
    }
  }

  lemma Distribute(a: nat, b: nat)
    ensures a * (b + 1) == a + a * b
  {
  }

  predicate InOrder(runs: seq<nat>, run: nat) {
    (forall i :: 0 <= i < |runs| ==> run <= runs[i]) && (forall i, j :: 0 <= i < j < |runs| ==> runs[i] < runs[j])
  }

  predicate NoneRepeated(actions: seq<Action>, runs: seq<nat>) {
    forall i :: 0 <= i < |runs| && runs[i] < |actions| ==> actions[runs[i]] != Repeat
  }

  predicate OthersRepeated(actions: seq<Action>, runs: seq<nat>, run: nat) {
    runs != [] && forall r :: run <= r <= runs[|runs| - 1] && r !in runs ==> r < |actions| && actions[r] == Repeat
  }

  predicate GoOnUntilLast(actions: seq<Action>, runs: seq<nat>) {
    forall i :: 0 <= i < |runs| - 1 && runs[i] < |actions| ==> actions[runs[i]] == Continue
  }

  lemma {:induction false} CommittedInOrder(actions: seq<Action>, extra: nat, run: nat, index: nat)
    requires index <= extra
    ensures var runs := Committed(actions, extra, run, index);
            && 1 <= |runs| <= extra - index + 1 && InOrder(runs, run)
            && NoneRepeated(actions, runs) && GoOnUntilLast(actions, runs)
            && var last := runs[|runs| - 1];
               ((last < |actions| && actions[last] == Finish) || |runs| == extra - index + 1)
    decreases if run < |actions| then |actions| - run else 0, extra - index
  {
    match Decision(actions, run)
    case Repeat => CommittedInOrder(actions, extra, run + 1, index);
    case Continue => if index < extra { CommittedInOrder(actions, extra, run + 1, index + 1); }
    case Finish =>
  }

  lemma {:induction false} CommittedOthers(actions: seq<Action>, extra: nat, run: nat, index: nat)
    requires index <= extra
    ensures OthersRepeated(actions, Committed(actions, extra, run, index), run)
    decreases if run < |actions| then |actions| - run else 0, extra - index
  {
    match Decision(actions, run)
    case Repeat => CommittedOthers(actions, extra, run + 1, index);
    case Continue =>
      if index < extra {
        CommittedOthers(actions, extra, run + 1, index + 1);
        OneMore(actions, Committed(actions, extra, run + 1, index + 1), run);
      }
    case Finish =>
  }

  lemma OneMore(actions: seq<Action>, rest: seq<nat>, run: nat)
    requires OthersRepeated(actions, rest, run + 1)
    ensures OthersRepeated(actions, [run] + rest, run)
  {
    var runs := [run] + rest;
    assert runs[|runs| - 1] == rest[|rest| - 1] && run in runs && forall r :: r in rest ==> r in runs;
  }

  lemma {:induction false} CommittedWithoutRepeats(actions: seq<Action>, extra: nat, run: nat, index: nat)
    requires index <= extra && forall i :: run <= i < |actions| ==> actions[i] == Continue
    ensures var runs := Committed(actions, extra, run, index);
            |runs| == extra - index + 1 && forall i :: 0 <= i < |runs| ==> runs[i] == run + i
    decreases extra - index
  {
    if index < extra {
      CommittedWithoutRepeats(actions, extra, run + 1, index + 1);
    }
  }

  /**
   Never more samplings than were paid for, in order. No sampling that stays was to be repeated, and every other
   one up to the last that stays was. Each that stays but the last let the session go on; the last one finished it
   or used up what was paid for. (A sampling without an action of its own goes on.)
   */
  lemma CommittedExactly(actions: seq<Action>, extra: nat, run: nat, index: nat)
    requires index <= extra
    ensures var runs := Committed(actions, extra, run, index);
            && 1 <= |runs| <= extra - index + 1
            && (forall i :: 0 <= i < |runs| ==> run <= runs[i])
            && (forall i, j :: 0 <= i < j < |runs| ==> runs[i] < runs[j])
    ensures var runs := Committed(actions, extra, run, index);
            && (forall i :: 0 <= i < |runs| && runs[i] < |actions| ==> actions[runs[i]] != Repeat)
            && (forall r :: run <= r <= runs[|runs| - 1] && r !in runs ==> r < |actions| && actions[r] == Repeat)
            && (forall i :: 0 <= i < |runs| - 1 && runs[i] < |actions| ==> actions[runs[i]] == Continue)
            && var last := runs[|runs| - 1];
               ((last < |actions| && actions[last] == Finish) || |runs| == extra - index + 1)
    ensures var runs := Committed(actions, extra, run, index);
            (forall i :: run <= i < |actions| ==> actions[i] == Continue) ==>
              |runs| == extra - index + 1 && forall i :: 0 <= i < |runs| ==> runs[i] == run + i
  {
    CommittedInOrder(actions, extra, run, index);
    CommittedOthers(actions, extra, run, index);
    if forall i :: run <= i < |actions| ==> actions[i] == Continue {
      CommittedWithoutRepeats(actions, extra, run, index);
    }
  }

  /** A row written behind start cells that keep their values. */
  lemma RowWritten(was: seq<int>, now: seq<int>, start: nat, row: seq<int>)
    requires |now| == |was| && start + |row| <= |was|
    requires forall k :: 0 <= k < start ==> now[k] == was[k]
    requires forall k :: 0 <= k < |row| ==> now[start + k] == row[k]
    ensures now[..start + |row|] == was[..start] + row
  {
  }

  class Adc {
    const buffer: array<int>
    var next: nat
    var repeatFrom: nat
    var channels: Mask

    constructor (cells: nat)
      ensures fresh(buffer) && buffer.Length == cells && next == 0
    {
      buffer, next, repeatFrom, channels := new int[cells], 0, 0, {};
    }

    /** adc_context_start_sampling */
    method StartSampling(mask: Mask)
      modifies `channels, `repeatFrom
      ensures channels == mask && repeatFrom == next
    {
      channels, repeatFrom := mask, next;
    }

    /** adc_context_update_buffer_pointer */
    method UpdateBufferPointer(repeatSampling: bool)
      modifies `next
      ensures next == if repeatSampling then repeatFrom else old(next)
    {
      if repeatSampling {
        next := repeatFrom;
      }
    }

    /** find_lsb_set(channels) - 1 */
    method LowestChannel() returns (c: nat)
      requires channels != {}
      ensures IsLeast(channels, c)
    {
      c := 0;
      ghost var some :| some in channels;
      while c !in channels
        invariant c <= some && forall b :: b in channels ==> b >= c
        decreases some - c
      {
        c := c + 1;
      }
    }

    /** *data->buffer++ = result, and WRITE_BIT(data->channels, channel, 0) */
    method Store(c: nat, result: int)
      requires next < buffer.Length && c in channels
      modifies `next, `channels, buffer
      ensures next == old(next) + 1 && channels == old(channels) - {c}
      ensures buffer[old(next)] == result && forall k :: 0 <= k < old(next) ==> buffer[k] == old(buffer[k])
    {
      buffer[next] := result;
      next := next + 1;
      channels := channels - {c};
    }

    /** One turn of the inner loop: read the least channel left, store it, clear its bit. */
    method ReadLowest(read: Readings, run: nat) returns (c: nat)
      requires channels != {} && next < buffer.Length
      modifies `next, `channels, buffer
      ensures channels < old(channels) && next == old(next) + 1
      ensures Ascending(old(channels)) == [c] + Ascending(channels)
      ensures buffer[old(next)] == ReadAt(read, run, c)
      ensures forall k :: 0 <= k < old(next) ==> buffer[k] == old(buffer[k])
    {
      c := LowestChannel();
      AscendingFirst(channels, c);
      Store(c, ReadAt(read, run, c));
    }

    /** The inner loop of mcp320x_acquisition_thread: one sample per channel, ascending, from next on. */
    method Acquire(read: Readings, run: nat)
      requires next + |Ascending(channels)| <= buffer.Length
      modifies `next, `channels, buffer
      ensures channels == {} && next == old(next) + |Ascending(old(channels))| <= buffer.Length
      ensures forall k :: 0 <= k < old(next) ==> buffer[k] == old(buffer[k])
      ensures var all := Ascending(old(channels));
              forall k :: 0 <= k < |all| ==> buffer[old(next) + k] == ReadAt(read, run, all[k])
    {
      ghost var all, start, j := Ascending(channels), next, 0;
      while channels != {}
        invariant 0 <= j <= |all| && Ascending(channels) == all[j..]
        invariant next == start + j && start + |all| <= buffer.Length
        invariant forall k :: 0 <= k < start ==> buffer[k] == old(buffer[k])
        invariant forall k :: 0 <= k < j ==> buffer[start + k] == ReadAt(read, run, all[k])
        decreases channels
      {
        var c := ReadLowest(read, run);
        j := j + 1;
      }
    }

    /** One sampling of mask from next on, as the context starts it. */
    method Sample(mask: Mask, read: Readings, run: nat)
      requires next + |Ascending(mask)| <= buffer.Length
      modifies `next, `channels, `repeatFrom, buffer
      ensures repeatFrom == old(next) && next == old(next) + |Ascending(mask)| <= buffer.Length
      ensures buffer[..next] == old(buffer[..next]) + Row(Ascending(mask), read, run)
    {
      ghost var was, row := buffer[..], Row(Ascending(mask), read, run);
      StartSampling(mask);
      Acquire(read, run);
      RowWritten(was, buffer[..], repeatFrom, row);
      assert buffer[..][..next] == buffer[..next] && was[..repeatFrom] == old(buffer[..next]);
    }

    /** One sampling, and the context's decision about it: a repeat goes back to where it began. */
    method Turn(mask: Mask, actions: seq<Action>, read: Readings, run: nat) returns (decision: Action)
      requires next + |Ascending(mask)| <= buffer.Length
      modifies `next, `channels, `repeatFrom, buffer
      ensures decision == Decision(actions, run) && next <= buffer.Length
      ensures buffer[..next] ==
              if decision == Repeat then old(buffer[..next]) else old(buffer[..next]) + Row(Ascending(mask), read, run)
    {
      ghost var before, row := buffer[..next], Row(Ascending(mask), read, run);
      Sample(mask, read, run);
      decision := Decision(actions, run);
      if decision == Repeat {
        assert buffer[..repeatFrom] == (before + row)[..repeatFrom];
        UpdateBufferPointer(true);
      } else if decision == Continue {
        UpdateBufferPointer(false);
      }
    }

    /**
     mcp320x_start_read and the samplings it starts: a refused request writes nothing; an accepted one
     leaves the rows of the committed samplings, within the buffer the caller passed.
     */
    method StartRead(supported: nat, mask: Mask, resolution: int, extra: nat, bufferSize: nat,
        actions: seq<Action>, read: Readings)
      returns (ret: int)
      requires 1 <= supported <= 8 && next == 0 && buffer.Length == bufferSize / 2
      modifies this, buffer
      ensures ret == 0 <==> resolution == RESOLUTION && (forall b :: b in mask ==> b < supported)
                            && 2 * |mask| * (1 + extra) <= bufferSize
      ensures ret != 0 ==> next == 0 && buffer[..] == old(buffer[..])
      ensures ret == 0 ==>
                next <= buffer.Length && buffer[..next] == Rows(Ascending(mask), read, Committed(actions, extra, 0, 0))
    {
      ret := CheckRequest(supported, mask, resolution, extra, bufferSize);
      if ret != 0 {
        return;
      }
      AcceptedIsPaid(mask, extra, bufferSize);
      Session(mask, extra, actions, read);
    }

    /** A whole accepted request: samplings, repeats and the final layout of the buffer. */
    method Session(mask: Mask, extra: nat, actions: seq<Action>, read: Readings)
      requires next == 0 && Paid(mask, extra, buffer.Length)
      modifies this, buffer
      ensures next <= buffer.Length
      ensures buffer[..next] == Rows(Ascending(mask), read, Committed(actions, extra, 0, 0))
    {
      ghost var all := Committed(actions, extra, 0, 0);
      ghost var kept: seq<nat> := [];
      var run, index, finished := 0, 0, false;
      while !finished
        invariant index <= extra && next <= buffer.Length
        invariant !finished ==> |kept| == index && kept + Committed(actions, extra, run, index) == all
        invariant finished ==> kept == all
        invariant buffer[..next] == Rows(Ascending(mask), read, kept)
        decreases !finished, if run < |actions| then |actions| - run else 0, extra - index
      {
        ghost var tail := Committed(actions, extra, run, index);
        RowsRoom(mask, read, kept, extra, buffer.Length);
        Commit(Ascending(mask), read, kept, run);
        var decision := Turn(mask, actions, read, run);
        if decision != Repeat {
          CommittedTail(actions, extra, run, index, kept);
          kept := kept + [run];
          if decision == Finish || index == extra {
            finished := true;
          } else {
            index := index + 1;
          }
        }
        run := run + 1;
      }
    }
  }

  /** The size check of an accepted request, in cells. */
  predicate Paid(mask: Mask, extra: nat, cells: nat) {
    |mask| * (1 + extra) <= cells
  }

  /** A buffer of bufferSize bytes holds bufferSize / 2 cells of two bytes. */
  lemma AcceptedIsPaid(mask: Mask, extra: nat, bufferSize: nat)
    requires 2 * |mask| * (1 + extra) <= bufferSize
    ensures Paid(mask, extra, bufferSize / 2)
  {
    assert 2 * |mask| * (1 + extra) == 2 * (|mask| * (1 + extra));
  }

  lemma CommittedTail(actions: seq<Action>, extra: nat, run: nat, index: nat, kept: seq<nat>)
    requires index <= extra && Decision(actions, run) != Repeat
    ensures kept + Committed(actions, extra, run, index)
         == kept + [run] + if Decision(actions, run) == Finish || index == extra then []
                           else Committed(actions, extra, run + 1, index + 1)
  {
  }

  /** While a sampling is still owed, there is room for one more row. */
  lemma RowsRoom(mask: Mask, read: Readings, kept: seq<nat>, extra: nat, cells: nat)
    requires |kept| <= extra && Paid(mask, extra, cells)
    ensures |Rows(Ascending(mask), read, kept)| + |Ascending(mask)| <= cells
  {
    AscendingMembers(mask);
    RowsLength(Ascending(mask), read, kept);
    Distribute(|mask|, |kept|);
    MulMonotone(|mask|, |kept| + 1, 1 + extra);
  }

  lemma MulMonotone(a: nat, b: nat, c: nat)
    requires b <= c
    ensures a * b <= a * c
  {
  }

  lemma Commit(channels: seq<nat>, read: Readings, kept: seq<nat>, run: nat)
    ensures Rows(channels, read, kept + [run]) == Rows(channels, read, kept) + Row(channels, read, run)
  {
    RowsAppend(channels, read, kept, [run]);
    assert Rows(channels, read, [run]) == Row(channels, read, run) + Rows(channels, read, []);
  }

  lemma IndexAppend(a: seq<int>, b: seq<int>, k: nat)
    requires k < |b|
    ensures (a + b)[|a| + k] == b[k]
  {
  }

  /** There is a cell number at, and it holds value. */
  predicate CellIs(rows: seq<int>, at: nat, value: int) {
    at < |rows| && rows[at] == value
  }

  lemma FirstRow(channels: seq<nat>, read: Readings, runs: seq<nat>, i: nat)
    requires runs != [] && i < |channels|
    ensures CellIs(Rows(channels, read, runs), i, ReadAt(read, runs[0], channels[i]))
  {
  }

  lemma LaterRow(channels: seq<nat>, read: Readings, runs: seq<nat>, at: nat, value: int)
    requires runs != [] && CellIs(Rows(channels, read, runs[1..]), at, value)
    ensures CellIs(Rows(channels, read, runs), |channels| + at, value)
  {
    IndexAppend(Row(channels, read, runs[0]), Rows(channels, read, runs[1..]), at);
  }

  /** Cell (j, i) of the result is the last reading of channel number i in sampling j. */
  lemma {:induction false} CellOf(channels: seq<nat>, read: Readings, runs: seq<nat>, j: nat, i: nat)
    requires j < |runs| && i < |channels|
    ensures CellIs(Rows(channels, read, runs), |channels| * j + i, ReadAt(read, runs[j], channels[i]))
    ensures var run, c := runs[j], channels[i];
            run < |read| && c < |read[run]| ==> CellIs(Rows(channels, read, runs), |channels| * j + i, read[run][c])
    decreases j
  {
    if j == 0 {
      FirstRow(channels, read, runs, i);
    } else {
      CellOf(channels, read, runs[1..], j - 1, i);
      LaterRow(channels, read, runs, |channels| * (j - 1) + i, ReadAt(read, runs[j], channels[i]));
      Distribute(|channels|, j - 1);
    }
  }

  /** An accepted request writes one cell per channel and committed sampling, never more than was paid for. */
  lemma SessionLength(mask: Mask, extra: nat, actions: seq<Action>, read: Readings)
    ensures var runs := Committed(actions, extra, 0, 0);
            |Rows(Ascending(mask), read, runs)| == |mask| * |runs| <= |mask| * (1 + extra)
  {
    CommittedExactly(actions, extra, 0, 0);
    RowsOf(mask, extra, read, Committed(actions, extra, 0, 0));
  }

  lemma RowsOf(mask: Mask, extra: nat, read: Readings, runs: seq<nat>)
    requires |runs| <= 1 + extra
    ensures |Rows(Ascending(mask), read, runs)| == |mask| * |runs| <= |mask| * (1 + extra)
  {
    AscendingMembers(mask);
    RowsLength(Ascending(mask), read, runs);
    MulMonotone(|mask|, |runs|, 1 + extra);
  }
}
