/**
  The user contract's call-list interpreter.

  The extra of an event is a two-byte count followed by entries of a twenty-byte
  process address, a two-byte size and that many bytes of input. What a called
  process answers is not the interpreter's to decide: `outcome(i)` is the result
  of the `i`-th call.
 */
module UserRun {
  import opened Bytes
  import opened RegistryCodec
  import opened EventCodec

  const MIN_EXTRA := 28
  const MAX_CALLS := 16
  const ENTRY_HEAD := 22

  /** What `handle` finds at an offset: an entry that is cut short, or a call and the offset behind it. */
  datatype Entry = Incomplete | Complete(process: Address, input: bytes, next: nat)

  function EntryAt(extra: bytes, offset: nat): (e: Entry)
    ensures e.Complete? ==> offset + ENTRY_HEAD <= e.next <= |extra| && |e.input| == e.next - offset - ENTRY_HEAD
  {
    if offset + ENTRY_HEAD > |extra| then Incomplete
    else
      var size := FromBE(extra[offset + 20..offset + 22]);
      if offset + ENTRY_HEAD + size > |extra| then Incomplete
      else Complete(FromBE(extra[offset..offset + 20]), extra[offset + ENTRY_HEAD..offset + ENTRY_HEAD + size], offset + ENTRY_HEAD + size)
  }

  datatype ProcessCall = ProcessCall(process: Address, input: bytes, result: bool)

  /** The calls made, how many entries were tried, and whether the counter underflowed, which reverts everything. */
  datatype Ran = Ran(calls: seq<ProcessCall>, tried: nat, reverted: bool)

  function Loop(extra: bytes, offset: nat, count: nat, i: nat, outcome: nat -> bool): Ran
    decreases |extra| - offset
  {
    if offset >= |extra| then Ran([], 0, false)
    else
      match EntryAt(extra, offset)
      case Incomplete => Ran([], 1, false)
      case Complete(process, input, next) =>
        var call := ProcessCall(process, input, outcome(i));
        if !outcome(i) then Ran([call], 1, false)
        else if count == 0 then Ran([call], 1, true)
        else
          var rest := Loop(extra, next, count - 1, i + 1, outcome);
          Ran([call] + rest.calls, 1 + rest.tried, rest.reverted)
  }

  /** Whether `run` interprets the extra at all, instead of claiming the asset straight away. */
  predicate Interprets(extra: bytes) {
    |extra| >= MIN_EXTRA && 1 <= FromBE(extra[..2]) <= MAX_CALLS
  }

  /** In figures: at least 28 bytes, and a count of one to sixteen in the first two. */
  lemma InterpretsExactly(extra: bytes)
    ensures Interprets(extra) <==> |extra| >= 28 && var high: nat, low: nat := extra[0], extra[1]; 1 <= 256 * high + low <= 16
  {
    if |extra| >= 2 {
      var head, high: nat, low: nat := extra[..2], extra[0], extra[1];
      assert head[..1] == [extra[0]] && [extra[0]][..0] == [];
      assert FromBE([extra[0]]) == high;
      assert FromBE(head) == 256 * high + low;
    }
  }

  function Interpreted(extra: bytes, outcome: nat -> bool): Ran {
    if Interprets(extra) then Loop(extra, 2, FromBE(extra[..2]), 0, outcome) else Ran([], 0, false)
  }

  function After(calls: seq<ProcessCall>, rest: Ran): Ran {
    Ran(calls + rest.calls, |calls| + rest.tried, rest.reverted)
  }

  lemma AfterStep(calls: seq<ProcessCall>, extra: bytes, offset: nat, count: nat, i: nat, outcome: nat -> bool)
    requires EntryAt(extra, offset).Complete? && outcome(i) && count > 0
    ensures var e := EntryAt(extra, offset);
      After(calls, Loop(extra, offset, count, i, outcome))
      == After(calls + [ProcessCall(e.process, e.input, true)], Loop(extra, e.next, count - 1, i + 1, outcome))
  {
    hide EntryAt;
    var e := EntryAt(extra, offset);
    var call, rest := ProcessCall(e.process, e.input, true), Loop(extra, e.next, count - 1, i + 1, outcome);
    assert calls + ([call] + rest.calls) == (calls + [call]) + rest.calls;
  }

  lemma AfterIncomplete(calls: seq<ProcessCall>, extra: bytes, offset: nat, count: nat, i: nat, outcome: nat -> bool)
    requires offset < |extra| && EntryAt(extra, offset).Incomplete?
    ensures After(calls, Loop(extra, offset, count, i, outcome)) == Ran(calls, |calls| + 1, false)
  {
    hide EntryAt;
    assert calls + [] == calls;
  }

  lemma AfterEnd(calls: seq<ProcessCall>, extra: bytes, offset: nat, count: nat, i: nat, outcome: nat -> bool)
    requires offset >= |extra|
    ensures After(calls, Loop(extra, offset, count, i, outcome)) == Ran(calls, |calls|, false)
  {
    assert calls + [] == calls;
  }

  /** A failed call ends the loop; a successful one past the count reverts everything. */
  lemma AfterLast(calls: seq<ProcessCall>, extra: bytes, offset: nat, count: nat, i: nat, outcome: nat -> bool)
    requires EntryAt(extra, offset).Complete? && (!outcome(i) || count == 0)
    ensures var e := EntryAt(extra, offset);
      After(calls, Loop(extra, offset, count, i, outcome))
      == Ran(calls + [ProcessCall(e.process, e.input, outcome(i))], |calls| + 1, outcome(i))
  {
    hide EntryAt;
  }

  /** The loop of `run`, whose counter is an unsigned number and never below zero. */
  method Run(extra: bytes, outcome: nat -> bool) returns (r: Ran)
    ensures r == Interpreted(extra, outcome)
  {
    hide FromBE, EntryAt, Loop, After;
    if |extra| < MIN_EXTRA {
      return Ran([], 0, false);
    }
    var count: nat := FromBE(extra[..2]);
    if count < 1 || count > MAX_CALLS {
      return Ran([], 0, false);
    }
    var offset, calls := 2, [];
    AfterNothing(Loop(extra, offset, count, 0, outcome));
    while offset < |extra|
      invariant 2 <= offset <= |extra|
      invariant After(calls, Loop(extra, offset, count, |calls|, outcome)) == Interpreted(extra, outcome)
      decreases |extra| - offset
    {
      var entry := EntryAt(extra, offset);
      if entry.Incomplete? {
        AfterIncomplete(calls, extra, offset, count, |calls|, outcome);
        return Ran(calls, |calls| + 1, false);
      }
      var call := ProcessCall(entry.process, entry.input, outcome(|calls|));
      if !call.result || count == 0 {
        AfterLast(calls, extra, offset, count, |calls|, outcome);
        return Ran(calls + [call], |calls| + 1, call.result);
      }
      AfterStep(calls, extra, offset, count, |calls|, outcome);
      offset, count, calls := entry.next, count - 1, calls + [call];
    }
    AfterEnd(calls, extra, offset, count, |calls|, outcome);
    return Ran(calls, |calls|, false);
  }

  lemma AfterNothing(rest: Ran)
    ensures After([], rest) == rest
  {
    assert [] + rest.calls == rest.calls;
  }

  /** At most one entry more than the count is tried, and only a success past the count reverts. */
  lemma {:induction false} LoopBounds(extra: bytes, offset: nat, count: nat, i: nat, outcome: nat -> bool)
    ensures var r := Loop(extra, offset, count, i, outcome);
      && r.tried <= count + 1 && |r.calls| <= r.tried
      && (r.calls != [] ==> offset + ENTRY_HEAD * |r.calls| <= |extra|)
      && (r.reverted <==> |r.calls| == count + 1 && r.calls[count].result)
      && (forall j :: 0 <= j < |r.calls| ==> r.calls[j].result == outcome(i + j))
      && (forall j :: 0 <= j < |r.calls| - 1 ==> r.calls[j].result)
    decreases |extra| - offset
  {
    hide FromBE, EntryAt;
    if offset < |extra| {
      var e := EntryAt(extra, offset);
      if e.Complete? && outcome(i) && count > 0 {
        LoopBounds(extra, e.next, count - 1, i + 1, outcome);
        var rest := Loop(extra, e.next, count - 1, i + 1, outcome);
        var r := Loop(extra, offset, count, i, outcome);
        assert forall j :: 1 <= j < |r.calls| ==> r.calls[j] == rest.calls[j - 1];
      }
    }
  }

  // ---------- which extras can revert ----------

  /** How many complete entries can be read one after the other. */
  function Entries(extra: bytes, offset: nat): nat
    decreases |extra| - offset
  {
    if offset >= |extra| then 0
    else
      match EntryAt(extra, offset)
      case Incomplete => 0
      case Complete(_, _, next) => 1 + Entries(extra, next)
  }

  lemma {:induction false} LoopReverts(extra: bytes, offset: nat, count: nat, i: nat, outcome: nat -> bool)
    ensures Loop(extra, offset, count, i, outcome).reverted <==>
      Entries(extra, offset) > count && forall j :: i <= j <= i + count ==> outcome(j)
    decreases |extra| - offset
  {
    hide EntryAt;
    if offset < |extra| {
      var e := EntryAt(extra, offset);
      if e.Complete? && outcome(i) && count > 0 {
        LoopReverts(extra, e.next, count - 1, i + 1, outcome);
      }
    }
  }

  /** An extra is reverted exactly if it lists more entries than its count and all calls up to one past the count succeed. */
  lemma RevertsExactly(extra: bytes, outcome: nat -> bool)
    ensures Interpreted(extra, outcome).reverted <==>
      Interprets(extra) && Entries(extra, 2) > FromBE(extra[..2]) && forall j: nat :: j <= FromBE(extra[..2]) ==> outcome(j)
  {
    hide Loop, Entries, FromBE;
    if Interprets(extra) {
      LoopReverts(extra, 2, FromBE(extra[..2]), 0, outcome);
    }
  }

  /** So some outcome reverts it exactly if it lists more entries than its count. */
  lemma CanRevertExactly(extra: bytes)
    ensures (exists outcome: nat -> bool :: Interpreted(extra, outcome).reverted) <==>
      Interprets(extra) && Entries(extra, 2) > FromBE(extra[..2])
  {
    hide Interpreted, Entries, FromBE;
    var succeeds: nat -> bool := _ => true;
    RevertsExactly(extra, succeeds);
    forall outcome: nat -> bool | Interpreted(extra, outcome).reverted
      ensures Interprets(extra) && Entries(extra, 2) > FromBE(extra[..2])
    {
      RevertsExactly(extra, outcome);
    }
  }

  /** Two empty calls under a count of one */
  const ONE_TOO_MANY: bytes := [0, 1] + Zeros(2 * ENTRY_HEAD)

  /** It takes no more than that: if both calls succeed, everything is undone. */
  lemma OneTooManyReverts(outcome: nat -> bool)
    ensures Interpreted(ONE_TOO_MANY, outcome).reverted <==> outcome(0) && outcome(1)
  {
    hide Loop, Interpreted;
    var extra := ONE_TOO_MANY;
    assert extra[..2] == [0, 1] && FromBE([0, 1]) == 1 by {
      assert [0, 1][..1] == [0] && FromBE([0]) == 0;
    }
    EmptyEntry(extra, 2);
    EmptyEntry(extra, 24);
    assert Entries(extra, 46) == 0 && Entries(extra, 24) == 1 && Entries(extra, 2) == 2;
    RevertsExactly(extra, outcome);
  }

  lemma EmptyEntry(extra: bytes, offset: nat)
    requires offset + ENTRY_HEAD <= |extra| && extra[offset..offset + ENTRY_HEAD] == Zeros(ENTRY_HEAD)
    ensures EntryAt(extra, offset) == Complete(0, [], offset + ENTRY_HEAD)
  {
    hide FromBE;
    FromBEZeros(2);
    FromBEZeros(20);
    var head := extra[offset..offset + ENTRY_HEAD];
    assert extra[offset + 20..offset + 22] == head[20..22] == Zeros(2);
    assert extra[offset..offset + 20] == head[..20] == Zeros(20);
  }

  // ---------- a well-formed list runs in order ----------

  datatype Request = Request(process: Address, input: bytes)

  predicate Encodable20(r: Request) {
    r.process < Pow256(20) && |r.input| <= INT_MAX
  }

  function EncodeRequests(rs: seq<Request>): bytes {
    if rs == [] then [] else ToBE(rs[0].process, 20) + (ToBE(|rs[0].input|, 2) + (rs[0].input + EncodeRequests(rs[1..])))
  }

  lemma {:induction false} EntryOfRequest(extra: bytes, offset: nat, r: Request, rest: bytes)
    requires Encodable20(r) && offset <= |extra|
    requires extra[offset..] == ToBE(r.process, 20) + (ToBE(|r.input|, 2) + (r.input + rest))
    ensures EntryAt(extra, offset) == Complete(r.process, r.input, offset + ENTRY_HEAD + |r.input|)
    ensures offset + ENTRY_HEAD + |r.input| <= |extra| && extra[offset + ENTRY_HEAD + |r.input|..] == rest
  {
    hide ToBE, FromBE, Pow256;
    var tail := extra[offset..];
    Pow256Values();
    FromToBE(r.process, 20);
    FromToBE(|r.input|, 2);
    assert extra[offset..offset + 20] == tail[..20] == ToBE(r.process, 20);
    assert extra[offset + 20..offset + 22] == tail[20..22] == ToBE(|r.input|, 2);
    assert extra[offset + 22..offset + 22 + |r.input|] == tail[22..22 + |r.input|] == r.input;
    assert extra[offset + 22 + |r.input|..] == tail[22 + |r.input|..] == rest;
  }

  /** The calls a list of requests leads to: in order, up to and including the first failure. */
  function Expected(rs: seq<Request>, i: nat, outcome: nat -> bool): seq<ProcessCall>
    decreases rs
  {
    if rs == [] then []
    else
      var call := ProcessCall(rs[0].process, rs[0].input, outcome(i));
      if outcome(i) then [call] + Expected(rs[1..], i + 1, outcome) else [call]
  }

  lemma {:induction false} LoopOfRequests(extra: bytes, offset: nat, rs: seq<Request>, i: nat, outcome: nat -> bool)
    requires offset <= |extra| && extra[offset..] == EncodeRequests(rs)
    requires forall r :: r in rs ==> Encodable20(r)
    ensures Loop(extra, offset, |rs|, i, outcome) == Ran(Expected(rs, i, outcome), |Expected(rs, i, outcome)|, false)
    decreases rs
  {
    hide ToBE, FromBE, EntryAt, Encodable20;
    if rs != [] {
      var r := rs[0];
      EntryOfRequest(extra, offset, r, EncodeRequests(rs[1..]));
      LoopOfRequests(extra, offset + ENTRY_HEAD + |r.input|, rs[1..], i + 1, outcome);
    }
  }

  /** An extra that encodes exactly `count` calls makes those calls, with those inputs, in that order. */
  lemma {:induction false} RunOfRequests(rs: seq<Request>, outcome: nat -> bool)
    requires 1 <= |rs| <= MAX_CALLS && forall r :: r in rs ==> Encodable20(r)
    requires |ToBE(|rs|, 2) + EncodeRequests(rs)| >= MIN_EXTRA
    ensures Interpreted(ToBE(|rs|, 2) + EncodeRequests(rs), outcome) ==
      Ran(Expected(rs, 0, outcome), |Expected(rs, 0, outcome)|, false)
  {
    hide ToBE, FromBE, Loop, Expected;
    var extra := ToBE(|rs|, 2) + EncodeRequests(rs);
    Pow256Values();
    FromToBE(|rs|, 2);
    assert extra[..2] == ToBE(|rs|, 2) && extra[2..] == EncodeRequests(rs);
    LoopOfRequests(extra, 2, rs, 0, outcome);
  }
}
