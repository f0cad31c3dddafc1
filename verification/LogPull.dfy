/**
  The EOS engine's pull of contract logs. Events, the index of the next log and the
  offset into the node's history are written in separate transactions, the engine
  may stop between any two, and the node may be restarted from a later snapshot, so
  that its history begins at a later log. The log contract numbers its logs
  consecutively from zero, and the engine is configured to skip none.
 */
module LogPull {
  import opened ContractLog

  /** A log with the number the contract gave it. */
  datatype TxLog = TxLog(id: nat, log: Log)

  /** The n-th log ever has number n. */
  ghost predicate Numbered(history: seq<TxLog>) {
    forall i :: 0 <= i < |history| ==> history[i].id == i
  }

  function Logs(history: seq<TxLog>): seq<Log> {
    seq(|history|, i requires 0 <= i < |history| => history[i].log)
  }

  datatype Panic = NoActions | NotOverlapped | WrongId

  /**
    `Trying` is about to fetch at an offset; `Parsing` has fetched the logs from number
    `start` on, parsed `next` of them and expects number `index`; `Offset` has the
    index stored and the offset still to store.
   */
  datatype Phase =
    | Idle
    | Trying(index: nat, offset: nat)
    | Parsing(index: nat, offset: nat, start: nat, count: nat, next: nat)
    | Offset(offset: nat)
    | Halted(panic: Panic)

  /** `high` is history: how many logs were ever stored. */
  datatype Puller = Puller(events: Events, index: nat, offset: nat, phase: Phase, base: nat, tip: nat, tail: nat, high: nat)

  /** `tip` logs are final and `tail` more are not yet; `base` is the number of the first log the node still serves. */
  datatype Step =
    | Grow
    | Tail(tail: nat)
    | Rebase(base: nat)
    | Begin
    | Fetch(limit: nat, behind: bool)
    | Parse
    | WriteIndex
    | WriteOffset
    | Stop

  /** `AdjustOffset`: where the node's present history has the log of that number. */
  function Adjust(s: Puller, index: nat): Phase {
    if s.tip + s.tail <= s.base then Halted(NoActions)
    else if index < s.base then Halted(NotOverlapped)
    else Trying(index, index - s.base)
  }

  /**
    Fetching gives at most `limit` final logs at the offset. With none, `behind` says
    whether the contract has more logs than were pulled, which sends the engine to
    adjust its offset.
   */
  function FetchStep(s: Puller, limit: nat, behind: bool): Puller {
    if !s.phase.Trying? then s else
    var at := s.base + s.phase.offset;
    var count := if at + limit <= s.tip then limit else if at <= s.tip then s.tip - at else 0;
    if count > 0 then s.(phase := Parsing(s.phase.index, s.phase.offset, at, count, 0))
    else if s.phase.index > 0 && behind then s.(phase := Adjust(s, s.phase.index))
    else s.(phase := Idle)
  }

  function ParseStep(history: seq<TxLog>, s: Puller): Puller {
    if !s.phase.Parsing? || s.phase.next >= s.phase.count || s.phase.start + s.phase.next >= |history| then s else
    var p := s.phase;
    var tx := history[p.start + p.next];
    if p.index != tx.id then
      s.(phase := if p.next == 0 then Adjust(s, p.index) else Halted(WrongId))
    else
      s.(events := Put(s.events, tx.log), high := if tx.id < s.high then s.high else tx.id + 1,
         phase := p.(index := p.index + 1, next := p.next + 1))
  }

  function Next(history: seq<TxLog>, s: Puller, step: Step): Puller {
    match step
    case Grow => if s.tip < |history| then s.(tip := s.tip + 1) else s
    case Tail(tail) => s.(tail := tail)
    case Rebase(base) => if s.base <= base then s.(base := base) else s
    case Begin => if s.phase.Idle? then s.(phase := Trying(s.index, s.offset)) else s
    case Fetch(limit, behind) => FetchStep(s, limit, behind)
    case Parse => ParseStep(history, s)
    case WriteIndex =>
      if s.phase.Parsing? && s.phase.next == s.phase.count then s.(index := s.phase.index, phase := Offset(s.phase.offset + s.phase.count))
      else s
    case WriteOffset => if s.phase.Offset? then s.(offset := s.phase.offset, phase := Idle) else s
    case Stop => s.(phase := Idle)
  }

  function Run(history: seq<TxLog>, steps: seq<Step>): Puller {
    if steps == [] then Puller(map[], 0, 0, Idle, 0, 0, 0, 0)
    else Next(history, Run(history, steps[..|steps| - 1]), steps[|steps| - 1])
  }

  // ---------- the invariant ----------

  ghost predicate PhaseOk(history: seq<TxLog>, s: Puller) {
    match s.phase
    case Trying(index, _) => index == s.index
    case Parsing(index, _, start, count, next) =>
      && start + count <= s.tip && next <= count && 0 < count && index <= s.high
      && index == if next == 0 then s.index else start + next
    case Halted(panic) => !panic.WrongId? && (panic.NotOverlapped? ==> s.index < s.base)
    case Idle => true
    case Offset(_) => s.index > 0
  }

  ghost predicate Inv(history: seq<TxLog>, s: Puller) {
    && s.index <= s.high <= s.tip <= |history| && (s.index == 0 ==> s.offset == 0)
    && s.events == FirstWins(Logs(history)[..s.high])
    && PhaseOk(history, s)
  }

  lemma ParseOk(history: seq<TxLog>, s: Puller)
    requires Numbered(history) && Inv(history, s)
    ensures Inv(history, ParseStep(history, s))
  {
    hide FirstWins, Put;
    if s.phase.Parsing? && s.phase.next < s.phase.count {
      var at := s.phase.start + s.phase.next;
      if s.phase.index == at {
        PutAt(Logs(history), s.high, at);
      }
    }
  }

  lemma NextOk(history: seq<TxLog>, s: Puller, step: Step)
    requires Numbered(history) && Inv(history, s)
    ensures Inv(history, Next(history, s, step))
  {
    hide FirstWins, Put, ParseStep;
    if step.Parse? {
      ParseOk(history, s);
    }
  }

  lemma {:induction false} RunOk(history: seq<TxLog>, steps: seq<Step>)
    requires Numbered(history)
    ensures Inv(history, Run(history, steps))
  {
    if steps != [] {
      hide Inv, Next;
      RunOk(history, steps[..|steps| - 1]);
      NextOk(history, Run(history, steps[..|steps| - 1]), steps[|steps| - 1]);
    }
  }

  // ---------- main results ----------

  /** In every run the store is the first-wins map of a prefix of the logs at least as long as the stored index. */
  lemma PullIsPrefix(history: seq<TxLog>, steps: seq<Step>)
    requires Numbered(history)
    ensures var s := Run(history, steps);
      s.index <= s.high <= |history| && s.events == FirstWins(Logs(history)[..s.high])
  {
    hide FirstWins;
    RunOk(history, steps);
  }

  /** It never meets a wrong number in the middle of a batch; it halts only on a node that serves nothing or starts past the index. */
  lemma HaltsOnlyWithoutOverlap(history: seq<TxLog>, steps: seq<Step>)
    requires Numbered(history) && Run(history, steps).phase.Halted?
    ensures var s := Run(history, steps); s.phase.panic == NoActions || (s.phase.panic == NotOverlapped && s.index < s.base)
  {
    hide FirstWins;
    RunOk(history, steps);
  }

  function Parses(n: nat): seq<Step> {
    if n == 0 then [] else Parses(n - 1) + [Parse]
  }

  /** Where some steps lead from any state */
  function After(history: seq<TxLog>, s: Puller, steps: seq<Step>): Puller {
    if steps == [] then s else Next(history, After(history, s, steps[..|steps| - 1]), steps[|steps| - 1])
  }

  lemma AfterOne(history: seq<TxLog>, s: Puller, steps: seq<Step>, step: Step)
    ensures After(history, s, steps + [step]) == Next(history, After(history, s, steps), step)
  {
    hide Next;
    assert (steps + [step])[..|steps|] == steps;
  }

  lemma {:induction false} AfterSplit(history: seq<TxLog>, s: Puller, a: seq<Step>, b: seq<Step>)
    ensures After(history, s, a + b) == After(history, After(history, s, a), b)
  {
    hide Next;
    if b == [] {
      assert a + b == a;
    } else {
      assert (a + b)[..|a + b| - 1] == a + b[..|b| - 1];
      AfterSplit(history, s, a, b[..|b| - 1]);
    }
  }

  lemma {:induction false} RunThen(history: seq<TxLog>, a: seq<Step>, b: seq<Step>)
    ensures Run(history, a + b) == After(history, Run(history, a), b)
  {
    hide Next;
    if b == [] {
      assert a + b == a;
    } else {
      assert (a + b)[..|a + b| - 1] == a + b[..|b| - 1];
      RunThen(history, a, b[..|b| - 1]);
    }
  }

  /** A batch that starts at the index is taken in log by log. */
  lemma {:induction false} ParsesBatch(history: seq<TxLog>, s: Puller, n: nat)
    requires Numbered(history) && s.phase.Parsing? && s.phase.next == 0 && s.phase.start == s.phase.index
    requires n <= s.phase.count && s.phase.start + s.phase.count <= |history|
    ensures var s', p := After(history, s, Parses(n)), s.phase;
      s'.phase == p.(index := p.index + n, next := n) && s' == s.(events := s'.events, high := s'.high, phase := s'.phase)
  {
    hide Put, ParseStep, Next;
    if n > 0 {
      ParsesBatch(history, s, n - 1);
      AfterOne(history, s, Parses(n - 1), Parse);
      RightNext(history, After(history, s, Parses(n - 1)));
    }
  }

  lemma RightNext(history: seq<TxLog>, s: Puller)
    requires Numbered(history) && s.phase.Parsing? && s.phase.start + s.phase.next == s.phase.index < |history| && s.phase.next < s.phase.count
    ensures var s', p := Next(history, s, Parse), s.phase;
      s'.phase == p.(index := p.index + 1, next := p.next + 1) && s' == s.(events := s'.events, high := s'.high, phase := s'.phase)
  {
    hide Put, FetchStep, Adjust;
  }

  /** The steps that fetch up to `limit` logs at the index, once the engine is about to try there */
  function Takes(limit: nat, count: nat): seq<Step> {
    [Fetch(limit, true)] + Parses(count) + [WriteIndex] + [WriteOffset]
  }

  lemma TakesBatch(history: seq<TxLog>, s: Puller, limit: nat, count: nat)
    requires Numbered(history) && limit > 0 && s.base <= s.index < s.tip <= |history| && s.phase == Trying(s.index, s.index - s.base)
    requires count == if s.index + limit <= s.tip then limit else s.tip - s.index
    ensures var s' := After(history, s, Takes(limit, count));
      s' == s.(events := s'.events, high := s'.high, index := s.index + count, offset := s.index + count - s.base, phase := Idle)
  {
    hide Parses, After, ParseStep;
    OneStep(history, s, Fetch(limit, true));
    var fetched := After(history, s, [Fetch(limit, true)]);
    ParsesBatch(history, fetched, count);
    AfterSplit(history, s, [Fetch(limit, true)], Parses(count));
    AfterOne(history, s, [Fetch(limit, true)] + Parses(count), WriteIndex);
    AfterOne(history, s, [Fetch(limit, true)] + Parses(count) + [WriteIndex], WriteOffset);
  }

  lemma OneStep(history: seq<TxLog>, s: Puller, step: Step)
    ensures After(history, s, [step]) == Next(history, s, step)
  {
    hide Next;
    assert After(history, s, [step][..0]) == s;
  }

  /** How an engine gets to the index: at once, past a batch of other logs, or past the end of what the node serves. */
  function Finds(s: Puller, limit: nat): seq<Step> {
    if s.base + s.offset == s.index then [Begin]
    else if s.base + s.offset < s.tip then [Begin] + [Fetch(limit, true)] + [Parse]
    else [Begin] + [Fetch(limit, true)]
  }

  lemma FindsIndex(history: seq<TxLog>, s: Puller, limit: nat)
    requires Numbered(history) && s.phase.Idle? && s.base <= s.index < s.tip <= |history| && limit > 0 && (s.index == 0 ==> s.offset == 0)
    ensures After(history, s, Finds(s, limit)) == s.(phase := Trying(s.index, s.index - s.base))
  {
    hide After, ParseStep;
    OneStep(history, s, Begin);
    AfterOne(history, s, [Begin], Fetch(limit, true));
    if s.base + s.offset != s.index && s.base + s.offset < s.tip {
      AfterOne(history, s, [Begin] + [Fetch(limit, true)], Parse);
      WrongFirst(history, After(history, s, [Begin] + [Fetch(limit, true)]));
    }
  }

  /** A batch that starts elsewhere sends the engine to adjust its offset. */
  lemma WrongFirst(history: seq<TxLog>, s: Puller)
    requires Numbered(history) && s.phase.Parsing? && s.phase.next == 0 < s.phase.count && s.phase.start < |history| && s.phase.start != s.phase.index
    ensures ParseStep(history, s) == s.(phase := Adjust(s, s.phase.index))
  {
    hide Put, Adjust;
  }

  /**
    An engine that is behind catches up, whatever its stored offset, unless that leads to
    logs that are not final: one pull takes the index on by a whole batch, or to the last
    final log, sets the offset right and stores the logs.
   */
  lemma PullAdvances(history: seq<TxLog>, steps: seq<Step>, limit: nat)
    requires Numbered(history) && limit > 0
    requires var s := Run(history, steps);
      s.phase.Idle? && s.base <= s.index < s.tip && !(s.tip <= s.base + s.offset < s.tip + s.tail)
    ensures var s := Run(history, steps);
      var count := if s.index + limit <= s.tip then limit else s.tip - s.index;
      var s' := Run(history, steps + (Finds(s, limit) + Takes(limit, count)));
      && s'.phase.Idle? && s'.index == s.index + count && s'.base + s'.offset == s'.index && s.tip <= |history|
      && forall i :: 0 <= i < s'.index ==> KeyOf(history[i].log) in s'.events
  {
    hide Finds, Takes, Run, FirstWins, Next;
    var s := Run(history, steps);
    RunOk(history, steps);
    var count := if s.index + limit <= s.tip then limit else s.tip - s.index;
    FindsIndex(history, s, limit);
    TakesBatch(history, s.(phase := Trying(s.index, s.index - s.base)), limit, count);
    AfterSplit(history, s, Finds(s, limit), Takes(limit, count));
    RunThen(history, steps, Finds(s, limit) + Takes(limit, count));
    var all := steps + (Finds(s, limit) + Takes(limit, count));
    PullIsPrefix(history, all);
    var s' := Run(history, all);
    forall i | 0 <= i < s'.index ensures KeyOf(history[i].log) in s'.events {
      assert Logs(history)[..s'.high][i] == history[i].log;
      FirstWinsMeaning(Logs(history)[..s'.high], i);
    }
  }

  /** Two logs pulled, then the node restarted without the first, and two more logs of which one is final. */
  const STALLING: seq<Step> := [Grow, Grow, Begin, Fetch(2, false), Parse, Parse, WriteIndex, WriteOffset, Rebase(1), Grow, Tail(1)]

  /** A run can get to where a pull does nothing: the log at the index is final, the stored offset leads to one that is not. */
  lemma {:induction false} StalledRun(history: seq<TxLog>)
    requires Numbered(history) && |history| >= 3
    ensures var s := Run(history, STALLING);
      s.phase.Idle? && s.base <= s.index < s.tip && s.tip <= s.base + s.offset < s.tip + s.tail
  {
    hide Put, Run;
    RunNone(history);
    var s0 := Puller(map[], 0, 0, Idle, 0, 0, 0, 0);
    RunOne(history, 0);
    RunOne(history, 1);
    var s2 := s0.(tip := 2);
    assert Run(history, STALLING[..2]) == s2;
    RunOne(history, 2);
    RunOne(history, 3);
    var s4 := s2.(phase := Parsing(0, 0, 0, 2, 0));
    assert Run(history, STALLING[..4]) == s4;
    RunOne(history, 4);
    RunOne(history, 5);
    var s6 := s4.(events := Put(Put(map[], history[0].log), history[1].log), high := 2, phase := Parsing(2, 0, 0, 2, 2));
    assert Run(history, STALLING[..6]) == s6;
    RunOne(history, 6);
    RunOne(history, 7);
    var s8 := s6.(index := 2, offset := 2, phase := Idle);
    assert Run(history, STALLING[..8]) == s8;
    RunOne(history, 8);
    RunOne(history, 9);
    RunOne(history, 10);
    assert STALLING[..11] == STALLING;
  }

  lemma RunNone(history: seq<TxLog>)
    ensures STALLING[..0] == [] && Run(history, []) == Puller(map[], 0, 0, Idle, 0, 0, 0, 0)
  {
  }

  lemma RunOne(history: seq<TxLog>, i: nat)
    requires i < |STALLING|
    ensures Run(history, STALLING[..i + 1]) == Next(history, Run(history, STALLING[..i]), STALLING[i])
  {
    hide Next;
    assert STALLING[..i + 1][..i] == STALLING[..i];
  }

  // ---------- one pull ----------

  const MAX_ACTIONS: nat := 100

  /** An action as fetched, with whether its block is final when it is parsed. */
  datatype Action = Action(tx: TxLog, final: bool)

  /** The node as one pull sees it: the logs from number `base` on, of which the first `tip` are final. */
  datatype EosNode = EosNode(history: seq<TxLog>, base: nat, tip: nat, tail: seq<TxLog>)
  {
    /** Logs are numbered consecutively, final or not. */
    ghost predicate Valid() {
      && Numbered(history) && base <= tip <= |history|
      && forall i :: 0 <= i < |tail| ==> tail[i].id == tip + i
    }

    /** How many logs the contract has, final or not */
    function Count(): nat {
      tip + |tail|
    }

    /** What it serves from an offset on */
    function Served(offset: nat): (actions: seq<Action>)
      requires base <= tip <= |history|
      ensures |actions| == if base + offset >= Count() then 0 else if base + offset + MAX_ACTIONS <= Count() then MAX_ACTIONS else Count() - base - offset
      ensures forall i :: 0 <= i < |actions| ==>
        var at := base + offset + i;
        actions[i] == if at < tip then Action(history[at], true) else Action(tail[at - tip], false)
    {
      var n := if base + offset >= Count() then 0 else if base + offset + MAX_ACTIONS <= Count() then MAX_ACTIONS else Count() - base - offset;
      seq(n, i requires 0 <= i < n =>
        var at := base + offset + i;
        if at < tip then Action(history[at], true) else Action(tail[at - tip], false))
    }
  }

  /** How many of `n` actions fetched at an offset are final. */
  function FinalPart(node: EosNode, offset: nat, n: nat): nat {
    if node.base + offset >= node.tip then 0
    else if node.tip - node.base - offset <= n then node.tip - node.base - offset
    else n
  }

  class Engine {
    var events: Events
    var index: nat
    var offset: nat
    ghost var high: nat

    /** What is stored is right for the node's logs, wherever the engine stopped before. */
    ghost predicate Valid(node: EosNode)
      reads this
    {
      node.Valid() && Inv(node.history, Puller(events, index, offset, Idle, node.base, node.tip, |node.tail|, high))
    }

    constructor ()
      ensures forall node: EosNode :: node.Valid() ==> Valid(node)
    {
      events, index, offset, high := map[], 0, 0, 0;
    }

    method StoreWriteContractEvent(log: Log)
      modifies this`events
      ensures events == Put(old(events), log)
    {
      var k := (log.contract, log.nonce);
      if k !in events {
        events := events[k := log];
      }
    }

    /** Asks the node for its first action, and panics if there is none or it comes after the index. */
    method AdjustOffset(node: EosNode) returns (r: nat, panic: bool)
      requires node.Valid()
      ensures panic <==> node.Count() == node.base || index < node.base
      ensures !panic ==> node.base + r == index
    {
      var first := node.Served(0);
      if first == [] || index < first[0].tx.id {
        return 0, true;
      }
      return index - first[0].tx.id, false;
    }

    /** A batch fetched at an offset: its final part is taken in whole if it starts at the index, and refused if not. */
    method ParseActions(at: nat, actions: seq<Action>, ghost node: EosNode) returns (count: nat, retry: bool, panic: bool)
      requires Valid(node) && actions == node.Served(at)
      modifies this
      ensures Valid(node) && !panic
      ensures retry <==> actions != [] && actions[0].final && old(index) != node.base + at
      ensures retry || count == 0 ==> index == old(index) && offset == old(offset) && events == old(events) && high == old(high)
      ensures !retry ==> count == FinalPart(node, at, |actions|)
      ensures !retry && count > 0 ==> index == old(index) + count && offset == at + count && index <= high
    {
      hide FirstWins, Put;
      count, retry, panic := 0, false, false;
      var txRequestIndex := index;
      ghost var start := node.base + at;
      while count < |actions| && actions[count].final
        invariant count <= |actions| && index == old(index) && offset == old(offset)
        invariant count > 0 ==> start + count <= node.tip
        invariant count == 0 ==> txRequestIndex == index && events == old(events) && high == old(high)
        invariant count > 0 ==> old(index) == start && txRequestIndex == start + count
        invariant txRequestIndex <= high && Valid(node)
        decreases |actions| - count
      {
        var tx := actions[count].tx;
        assert tx == node.history[start + count];
        if txRequestIndex != tx.id {
          if count == 0 {
            return 0, true, false;
          }
          return count, false, true;
        }
        PutAt(Logs(node.history), high, tx.id);
        count := count + 1;
        txRequestIndex := txRequestIndex + 1;
        high := if tx.id < high then high else tx.id + 1;
        StoreWriteContractEvent(tx.log);
      }
      if count == 0 {
        return;
      }
      index := txRequestIndex;
      offset := at + count;
    }

    /**
      A pull, undisturbed, from a node that serves the log at the index. If the stored
      offset does not lead into the logs that are not final, it takes in the next batch
      and leaves the offset where the node has the log at the new index, whatever the
      stored offset was. If it does, nothing happens. It panics only if the node
      serves nothing or starts past the index.
     */
    method PullContractEvents(node: EosNode) returns (count: nat, panic: bool)
      requires Valid(node)
      modifies this
      ensures Valid(node)
      ensures panic ==> node.Count() == node.base || old(index) < node.base
      ensures node.base <= old(index) < node.tip && !(node.tip <= node.base + old(offset) < node.Count()) ==>
        && count == (if node.tip - old(index) <= MAX_ACTIONS then node.tip - old(index) else MAX_ACTIONS)
        && index == old(index) + count && offset == index - node.base
      ensures node.tip <= node.base + old(offset) < node.Count() ==>
        count == 0 && !panic && index == old(index) && offset == old(offset) && events == old(events)
      ensures node.base <= old(index) && old(index) == node.tip ==> index == old(index) && events == old(events)
    {
      hide Inv;
      var at := offset;
      ghost var adjusted := false;
      while true
        invariant Valid(node)
        invariant index == old(index) && offset == old(offset) && events == old(events) && high == old(high)
        invariant if adjusted then node.base + at == index else at == offset
        invariant adjusted ==> !(node.tip <= node.base + old(offset) < node.Count())
        decreases !adjusted
      {
        TipInHistory(node, this);
        var actions := node.Served(at);
        if actions == [] {
          if !(index > 0 && node.Count() >= index + 1) {
            return 0, false;
          }
        } else {
          var retry;
          count, retry, panic := ParseActions(at, actions, node);
          if !retry {
            return;
          }
        }
        at, panic := AdjustOffset(node);
        if panic {
          return 0, true;
        }
        adjusted := true;
      }
    }
  }

  lemma TipInHistory(node: EosNode, e: Engine)
    requires e.Valid(node)
    ensures node.tip <= |node.history| && e.index <= node.tip && (e.index == 0 ==> e.offset == 0)
  {
    hide FirstWins;
  }
}
