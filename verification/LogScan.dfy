/**
  The quorum engine's scan of blocks for logs: inclusive windows of eleven blocks
  that overlap in one, and an offset that moves once the chain is seen to be past
  the window. The chain does not reorganise. A failed request, like a stop, leaves
  the offset as it is.
 */
module LogScan {
  import opened ContractLog

  /** The logs of a block that decode as events. */
  type Blocks = nat -> seq<Log>

  const WINDOW: nat := 10

  /** The logs of blocks `from` up to but not including `to`. */
  function Flat(blocks: Blocks, from: nat, to: nat): seq<Log> {
    if to <= from then [] else Flat(blocks, from, to - 1) + blocks(to - 1)
  }

  lemma {:induction false} FlatSplit(blocks: Blocks, a: nat, b: nat, c: nat)
    requires a <= b <= c
    ensures Flat(blocks, a, c) == Flat(blocks, a, b) + Flat(blocks, b, c)
  {
    if b < c {
      FlatSplit(blocks, a, b, c - 1);
    }
  }

  /** `seen` is the chain's height when the logs were read, `next` how many of them are stored. */
  datatype Phase =
    | Idle
    | Storing(from: nat, seen: nat, next: nat)
    | Moving(to: nat)

  /** `high` is history: how many logs, from the base block on, were ever stored. */
  datatype Scanner = Scanner(offset: nat, events: Events, phase: Phase, height: nat, high: nat)

  datatype Step = Mine | GetLogs | Store | GetHeight | WriteOffset | Stop

  function From(base: nat, offset: nat): nat {
    if offset < base then base else offset
  }

  /** What `GetLogs` returned for a window, given the height it saw. */
  function Found(blocks: Blocks, from: nat, seen: nat): seq<Log> {
    Flat(blocks, from, if from + WINDOW <= seen then from + WINDOW + 1 else seen + 1)
  }

  function Next(blocks: Blocks, base: nat, s: Scanner, step: Step): Scanner {
    match step
    case Mine => s.(height := s.height + 1)
    case GetLogs => if s.phase.Idle? then s.(phase := Storing(From(base, s.offset), s.height, 0)) else s
    case Store =>
      if !s.phase.Storing? then s else
      var found := Found(blocks, s.phase.from, s.phase.seen);
      if s.phase.next >= |found| then s else
      var at := |Flat(blocks, base, s.phase.from)| + s.phase.next;
      s.(events := Put(s.events, found[s.phase.next]), phase := s.phase.(next := s.phase.next + 1),
         high := if at < s.high then s.high else at + 1)
    case GetHeight =>
      if !s.phase.Storing? || s.phase.next < |Found(blocks, s.phase.from, s.phase.seen)| then s
      else if s.phase.from + WINDOW > s.height then s.(phase := Idle)
      else s.(phase := Moving(s.phase.from + WINDOW))
    case WriteOffset => if s.phase.Moving? then s.(offset := s.phase.to, phase := Idle) else s
    case Stop => s.(phase := Idle)
  }

  function Run(blocks: Blocks, base: nat, height: nat, steps: seq<Step>): Scanner {
    if steps == [] then Scanner(0, map[], Idle, height, 0)
    else Next(blocks, base, Run(blocks, base, height, steps[..|steps| - 1]), steps[|steps| - 1])
  }

  // ---------- the invariant ----------

  /** The logs of all blocks from the base up to but not including `to` are stored. */
  ghost predicate Covered(blocks: Blocks, base: nat, s: Scanner, to: nat) {
    |Flat(blocks, base, to)| <= s.high
  }

  /** The store is the first-wins map of a prefix of the chain's logs, and a window being stored is covered so far. */
  ghost predicate StoreOk(blocks: Blocks, base: nat, s: Scanner) {
    var all := Flat(blocks, base, s.height + 1);
    && s.high <= |all| && s.events == FirstWins(all[..s.high])
    && (s.phase.Storing? ==>
         && base <= s.phase.from && s.phase.seen <= s.height
         && s.phase.next <= |Found(blocks, s.phase.from, s.phase.seen)|
         && |Flat(blocks, base, s.phase.from)| + s.phase.next <= s.high)
  }

  ghost predicate Inv(blocks: Blocks, base: nat, s: Scanner) {
    && StoreOk(blocks, base, s) && Covered(blocks, base, s, From(base, s.offset))
    && (s.phase.Moving? ==> base <= s.phase.to && Covered(blocks, base, s, s.phase.to))
  }

  /** Since its logs were read, at most `lag` blocks were added. */
  ghost predicate Within(s: Scanner, lag: nat) {
    s.phase.Storing? ==> s.height <= s.phase.seen + lag
  }

  lemma MineOk(blocks: Blocks, base: nat, s: Scanner)
    requires StoreOk(blocks, base, s)
    ensures StoreOk(blocks, base, s.(height := s.height + 1))
  {
    var all := Flat(blocks, base, s.height + 1);
    var more := Flat(blocks, base, s.height + 2);
    if base <= s.height + 1 {
      FlatSplit(blocks, base, s.height + 1, s.height + 2);
    }
    assert more[..s.high] == all[..s.high];
  }

  /** A log found in a window is the log at its place in the whole chain. */
  lemma FoundAt(blocks: Blocks, base: nat, from: nat, seen: nat, height: nat, next: nat)
    requires base <= from && seen <= height && next < |Found(blocks, from, seen)|
    ensures var at := |Flat(blocks, base, from)| + next;
      at < |Flat(blocks, base, height + 1)| && Flat(blocks, base, height + 1)[at] == Found(blocks, from, seen)[next]
  {
    hide Flat;
    var to := if from + WINDOW <= seen then from + WINDOW + 1 else seen + 1;
    NothingFound(blocks, from, to);
    FlatSplit(blocks, base, from, to);
    FlatSplit(blocks, base, to, height + 1);
  }

  lemma NothingFound(blocks: Blocks, from: nat, to: nat)
    ensures to <= from ==> Flat(blocks, from, to) == []
  {
  }

  lemma StoreStepOk(blocks: Blocks, base: nat, s: Scanner)
    requires Inv(blocks, base, s)
    ensures Inv(blocks, base, Next(blocks, base, s, Store))
  {
    hide Flat, FirstWins, Found, Put;
    if s.phase.Storing? && s.phase.next < |Found(blocks, s.phase.from, s.phase.seen)| {
      var at := |Flat(blocks, base, s.phase.from)| + s.phase.next;
      FoundAt(blocks, base, s.phase.from, s.phase.seen, s.height, s.phase.next);
      PutAt(Flat(blocks, base, s.height + 1), s.high, at);
    }
  }

  /**
    The heart of the matter: with its window stored and the chain seen to be past
    it, the blocks below the next window are covered if the logs were read no
    earlier than one block before the window's end.
   */
  lemma WindowCovers(blocks: Blocks, base: nat, s: Scanner)
    requires Inv(blocks, base, s) && s.phase.Storing? && s.phase.next == |Found(blocks, s.phase.from, s.phase.seen)|
    requires s.phase.seen + 1 >= s.phase.from + WINDOW
    ensures Covered(blocks, base, s, s.phase.from + WINDOW)
  {
    hide Flat, FirstWins;
    var from, seen := s.phase.from, s.phase.seen;
    var to := if from + WINDOW <= seen then from + WINDOW + 1 else seen + 1;
    FlatSplit(blocks, base, from, to);
    FlatSplit(blocks, base, from + WINDOW, to);
  }

  lemma NextOk(blocks: Blocks, base: nat, s: Scanner, step: Step)
    requires Inv(blocks, base, s) && (step.GetHeight? ==> Within(s, 1))
    ensures Inv(blocks, base, Next(blocks, base, s, step))
  {
    hide Flat, FirstWins, Found, Put;
    match step
    case Mine => MineOk(blocks, base, s);
    case Store => StoreStepOk(blocks, base, s);
    case GetHeight =>
      if s.phase.Storing? && s.phase.next == |Found(blocks, s.phase.from, s.phase.seen)| && s.phase.from + WINDOW <= s.height {
        WindowCovers(blocks, base, s);
      }
    case GetLogs =>
    case WriteOffset =>
    case Stop =>
  }

  /** Whenever the height is asked for, at most `lag` blocks were added since the logs were read. */
  ghost predicate AlwaysWithin(blocks: Blocks, base: nat, height: nat, steps: seq<Step>, lag: nat) {
    forall i :: 0 <= i < |steps| && steps[i].GetHeight? ==> Within(Run(blocks, base, height, steps[..i]), lag)
  }

  lemma {:induction false} RunOk(blocks: Blocks, base: nat, height: nat, steps: seq<Step>)
    requires AlwaysWithin(blocks, base, height, steps, 1)
    ensures Inv(blocks, base, Run(blocks, base, height, steps))
  {
    if steps != [] {
      hide Inv, Next;
      var before := steps[..|steps| - 1];
      forall i | 0 <= i < |before| && before[i].GetHeight? ensures Within(Run(blocks, base, height, before[..i]), 1) {
        assert before[..i] == steps[..i] && before[i] == steps[i];
      }
      RunOk(blocks, base, height, before);
      NextOk(blocks, base, Run(blocks, base, height, before), steps[|steps| - 1]);
    }
  }

  // ---------- main results ----------

  /** In every run with at most one block between the two requests, the store is the first-wins map of a prefix of the logs that covers all blocks below the offset. */
  lemma ScanCovers(blocks: Blocks, base: nat, height: nat, steps: seq<Step>)
    requires AlwaysWithin(blocks, base, height, steps, 1)
    ensures var s := Run(blocks, base, height, steps);
      var all := Flat(blocks, base, s.height + 1);
      && |Flat(blocks, base, s.offset)| <= s.high <= |all|
      && s.events == FirstWins(all[..s.high])
  {
    hide Flat, FirstWins, Run, AlwaysWithin;
    RunOk(blocks, base, height, steps);
    NothingFound(blocks, base, Run(blocks, base, height, steps).offset);
  }

  /** Every event of a block below the offset is in the store, or an earlier one with its key. */
  lemma NoLogMissed(blocks: Blocks, base: nat, height: nat, steps: seq<Step>, b: nat, i: nat)
    requires AlwaysWithin(blocks, base, height, steps, 1)
    requires base <= b < Run(blocks, base, height, steps).offset && i < |blocks(b)|
    ensures KeyOf(blocks(b)[i]) in Run(blocks, base, height, steps).events
  {
    hide FirstWins, Run;
    var s := Run(blocks, base, height, steps);
    var all := Flat(blocks, base, s.height + 1);
    ScanCovers(blocks, base, height, steps);
    FlatSplit(blocks, base, b + 1, s.offset);
    var at := |Flat(blocks, base, b)| + i;
    assert Flat(blocks, base, b + 1)[at] == blocks(b)[i];
    PrefixOf(blocks, base, b + 1, s.height + 1);
    assert all[..s.high][at] == blocks(b)[i];
    FirstWinsMeaning(all[..s.high], at);
  }

  lemma PrefixOf(blocks: Blocks, base: nat, a: nat, c: nat)
    requires |Flat(blocks, base, a)| <= |Flat(blocks, base, c)|
    ensures Flat(blocks, base, a) == Flat(blocks, base, c)[..|Flat(blocks, base, a)|]
  {
    if base <= a <= c {
      FlatSplit(blocks, base, a, c);
    } else if base <= c <= a {
      FlatSplit(blocks, base, c, a);
    }
  }

  /** Scanning a window again stores nothing new. */
  lemma RescanIsIdle(blocks: Blocks, base: nat, s: Scanner)
    requires Inv(blocks, base, s) && s.phase.Storing? && s.phase.next < |Found(blocks, s.phase.from, s.phase.seen)|
    requires |Flat(blocks, base, s.phase.from)| + s.phase.next < s.high
    ensures Next(blocks, base, s, Store).events == s.events
  {
    hide Flat, FirstWins, Found, Put;
    var at := |Flat(blocks, base, s.phase.from)| + s.phase.next;
    FoundAt(blocks, base, s.phase.from, s.phase.seen, s.height, s.phase.next);
    PutAt(Flat(blocks, base, s.height + 1), s.high, at);
  }

  // ---------- one round of the loop ----------

  lemma {:induction false} MineMany(blocks: Blocks, base: nat, s: Scanner, height: nat)
    requires Inv(blocks, base, s) && s.height <= height
    ensures Inv(blocks, base, s.(height := height))
    decreases height - s.height
  {
    if s.height < height {
      NextOk(blocks, base, s, Mine);
      MineMany(blocks, base, s.(height := s.height + 1), height);
    }
  }

  class Engine {
    var offset: nat
    var events: Events
    ghost var high: nat

    constructor ()
      ensures offset == 0 && events == map[] && high == 0
    {
      offset, events, high := 0, map[], 0;
    }

    method StoreWriteContractEvent(log: Log)
      modifies this`events
      ensures events == Put(old(events), log)
    {
      var k := (log.contract, log.nonce);
      if k in events {
        return;
      }
      events := events[k := log];
    }

    /**
      One round: the logs found at one height are stored, then the chain's height is
      asked for, and the offset moves if the chain is past the window. With at most
      one block in between, what is below the offset stays covered.
     */
    method ScanOnce(base: nat, logs: seq<Log>, height: nat, ghost blocks: Blocks, ghost seen: nat)
      requires Inv(blocks, base, Scanner(offset, events, Idle, seen, high)) && seen <= height
      requires logs == Found(blocks, From(base, offset), seen)
      modifies this
      ensures offset == if From(base, old(offset)) + WINDOW > height then old(offset) else From(base, old(offset)) + WINDOW
      ensures forall i :: 0 <= i < |logs| ==> KeyOf(logs[i]) in events
      ensures forall k :: k in old(events) ==> k in events && events[k] == old(events)[k]
      ensures height <= seen + 1 ==> Inv(blocks, base, Scanner(offset, events, Idle, height, high))
    {
      hide Inv, Found, Put;
      var from := if offset < base then base else offset;
      ghost var s := Next(blocks, base, Scanner(offset, events, Idle, seen, high), GetLogs);
      NextOk(blocks, base, Scanner(offset, events, Idle, seen, high), GetLogs);
      for i := 0 to |logs|
        invariant s == Scanner(offset, events, Storing(from, seen, i), seen, s.high) && Inv(blocks, base, s)
        invariant offset == old(offset)
        invariant forall j :: 0 <= j < i ==> KeyOf(logs[j]) in events
        invariant forall k :: k in old(events) ==> k in events && events[k] == old(events)[k]
      {
        NextOk(blocks, base, s, Store);
        s := Next(blocks, base, s, Store);
        PutKeeps(events, logs[i]);
        StoreWriteContractEvent(logs[i]);
      }
      MineMany(blocks, base, s, height);
      s := s.(height := height);
      if height <= seen + 1 {
        NextOk(blocks, base, s, GetHeight);
        NextOk(blocks, base, Next(blocks, base, s, GetHeight), WriteOffset);
      }
      high := s.high;
      if from + WINDOW > height {
        return;
      }
      offset := from + WINDOW;
    }
  }

  lemma PutKeeps(events: Events, log: Log)
    ensures KeyOf(log) in Put(events, log) && forall k :: k in events ==> k in Put(events, log) && Put(events, log)[k] == events[k]
  {
  }

  // ---------- the exact bound ----------

  /** A chain whose only log is in the last block but one of the first window. */
  const ONE_LOG: Blocks := b => if b == WINDOW - 1 then [Log("contract", 0, "")] else []

  const TWO_BLOCKS_BETWEEN: seq<Step> := [GetLogs] + [Mine] + [Mine] + [GetHeight] + [WriteOffset]

  /** Two blocks added between the two requests let the offset pass a block that was never scanned. */
  lemma TwoBlocksLoseOne()
    ensures var s := Run(ONE_LOG, 0, WINDOW - 2, TWO_BLOCKS_BETWEEN);
      s.offset == WINDOW && s.events == map[] && !Covered(ONE_LOG, 0, s, s.offset)
    ensures AlwaysWithin(ONE_LOG, 0, WINDOW - 2, TWO_BLOCKS_BETWEEN, 2)
  {
    hide Run, Flat;
    var h := WINDOW - 2;
    var s0 := Scanner(0, map[], Idle, h, 0);
    var s1 := s0.(phase := Storing(0, h, 0));
    RunNone(ONE_LOG, 0, h);
    FlatEmpty(ONE_LOG, 0, h + 1);
    assert Run(ONE_LOG, 0, h, [GetLogs]) == s1 by {
      RunOne(ONE_LOG, 0, h, [], GetLogs);
      assert [] + [GetLogs] == [GetLogs];
    }
    RunOne(ONE_LOG, 0, h, [GetLogs], Mine);
    RunOne(ONE_LOG, 0, h, [GetLogs] + [Mine], Mine);
    var asked := [GetLogs] + [Mine] + [Mine];
    assert Run(ONE_LOG, 0, h, asked) == s1.(height := WINDOW);
    RunOne(ONE_LOG, 0, h, asked, GetHeight);
    RunOne(ONE_LOG, 0, h, asked + [GetHeight], WriteOffset);
    OnlyOneAsks();
    assert |Flat(ONE_LOG, 0, WINDOW)| == 1 by {
      FlatLast(ONE_LOG, 0, WINDOW);
    }
  }

  lemma FlatLast(blocks: Blocks, from: nat, to: nat)
    requires from < to
    ensures Flat(blocks, from, to) == Flat(blocks, from, to - 1) + blocks(to - 1)
  {
  }

  lemma OnlyOneAsks()
    ensures forall i :: 0 <= i < |TWO_BLOCKS_BETWEEN| && TWO_BLOCKS_BETWEEN[i].GetHeight? ==> TWO_BLOCKS_BETWEEN[..i] == [GetLogs] + [Mine] + [Mine]
  {
  }

  lemma RunNone(blocks: Blocks, base: nat, height: nat)
    ensures Run(blocks, base, height, []) == Scanner(0, map[], Idle, height, 0)
  {
  }

  lemma RunOne(blocks: Blocks, base: nat, height: nat, steps: seq<Step>, step: Step)
    ensures Run(blocks, base, height, steps + [step]) == Next(blocks, base, Run(blocks, base, height, steps), step)
  {
    assert (steps + [step])[..|steps|] == steps;
  }

  lemma {:induction false} FlatEmpty(blocks: Blocks, from: nat, to: nat)
    requires forall b :: from <= b < to ==> blocks(b) == []
    ensures Flat(blocks, from, to) == []
  {
    if from < to {
      FlatEmpty(blocks, from, to - 1);
    }
  }

  /** Every run on every chain covers the blocks below its offset. */
  ghost predicate CoversWithin(lag: nat) {
    forall blocks: Blocks, base, height, steps ::
      AlwaysWithin(blocks, base, height, steps, lag) ==> Covered(blocks, base, Run(blocks, base, height, steps), Run(blocks, base, height, steps).offset)
  }

  /** One block between the two requests is what the overlap of windows allows, and no more. */
  lemma OverlapExactly(lag: nat)
    ensures CoversWithin(lag) <==> lag <= 1
  {
    hide Run, Flat;
    if lag <= 1 {
      forall blocks: Blocks, base, height, steps | AlwaysWithin(blocks, base, height, steps, lag)
        ensures Covered(blocks, base, Run(blocks, base, height, steps), Run(blocks, base, height, steps).offset)
      {
        ScanCovers(blocks, base, height, steps);
      }
    } else {
      TwoBlocksLoseOne();
      assert AlwaysWithin(ONE_LOG, 0, WINDOW - 2, TWO_BLOCKS_BETWEEN, lag);
    }
  }
}
