/**
  The proxy contract's window over event nonces: a counter row and a sparse table
  stand in for the set of all accepted nonces. Nonces are 64-bit and the counter
  wraps around. An aborted action leaves the state as it was.
 */
module NonceWindow {
  import opened Bytes

  /** `payload` is whatever else the event carries. */
  datatype TxEvent = TxEvent(process: string, nonce: uint64, payload: string)

  /** `accepted` and `handled` are history. */
  datatype Proxy = Proxy(
    count: Option<uint64>,
    submitted: set<uint64>,
    errors: map<uint64, TxEvent>,
    accepted: map<uint64, TxEvent>,
    handled: seq<TxEvent>)

  function Bump(n: uint64): uint64 {
    (n + 1) % U64
  }

  /** The counter, which reads as one before its row exists. */
  function Watermark(count: Option<uint64>): uint64 {
    if count.Some? then count.value else 1
  }

  predicate Passes(s: Proxy, nonce: uint64) {
    nonce >= Watermark(s.count) && nonce !in s.submitted
  }

  /** Rows met while counting up are removed. */
  function Advance(submitted: set<uint64>, n: uint64): (set<uint64>, uint64)
    decreases |submitted|
  {
    if n in submitted then Advance(submitted - {n}, Bump(n)) else (submitted, n)
  }

  function NotStale(submitted: set<uint64>, n: uint64): set<uint64> {
    set x | x in submitted && x >= n
  }

  predicate IsLowest(s: set<uint64>, r: uint64) {
    r in s && forall x :: x in s ==> r <= x
  }

  function Lowest(s: set<uint64>): (r: uint64)
    requires s != {}
    ensures IsLowest(s, r)
  {
    HasLowest(s);
    var r :| IsLowest(s, r);
    r
  }

  lemma {:induction false} HasLowest(s: set<uint64>)
    requires s != {}
    ensures exists r :: IsLowest(s, r)
    decreases |s|
  {
    var x :| x in s;
    if s == {x} {
      assert IsLowest(s, x);
    } else {
      HasLowest(s - {x});
      var r :| IsLowest(s - {x}, r);
      forall y | y in s ensures y >= r || y >= x {
        assert y == x || y in s - {x};
      }
      assert IsLowest(s, if r <= x then r else x);
    }
  }

  // ---------- actions ----------

  datatype Action =
    | OnEvent(event: TxEvent, verified: bool, handles: bool)
    | OnErrorEvent(event: TxEvent, verified: bool)
    | Exec(authorized: bool, handles: bool)

  predicate Accepts(process: string, s: Proxy, event: TxEvent, verified: bool) {
    verified && event.process == process && Passes(s, event.nonce)
  }

  function Next(process: string, s: Proxy, action: Action): Proxy {
    match action
    case OnEvent(event, verified, handles) =>
      if !Accepts(process, s, event, verified) || !handles then s else
        var (rows, n) := Advance(s.submitted + {event.nonce}, Watermark(s.count));
        s.(count := Some(n), submitted := NotStale(rows, n),
           accepted := s.accepted[event.nonce := event], handled := s.handled + [event])
    case OnErrorEvent(event, verified) =>
      if !Accepts(process, s, event, verified) || event.nonce in s.errors then s else
        s.(count := Some(Watermark(s.count)), submitted := s.submitted + {event.nonce},
           errors := s.errors[event.nonce := event], accepted := s.accepted[event.nonce := event])
    case Exec(authorized, handles) =>
      if !authorized || s.errors == map[] || !handles then s else
        var lowest := Lowest(s.errors.Keys);
        s.(errors := s.errors - {lowest}, handled := s.handled + [s.errors[lowest]])
  }

  const INITIAL := Proxy(None, {}, map[], map[], [])

  function Run(process: string, actions: seq<Action>): Proxy {
    if actions == [] then INITIAL
    else Next(process, Run(process, actions[..|actions| - 1]), actions[|actions| - 1])
  }

  // ---------- the contract ----------

  class Contract {
    const process: string
    var count: Option<uint64>
    var submitted: set<uint64>
    var errors: map<uint64, TxEvent>
    ghost var accepted: map<uint64, TxEvent>
    ghost var handled: seq<TxEvent>

    ghost function State(): Proxy
      reads this
    {
      Proxy(count, submitted, errors, accepted, handled)
    }

    constructor (process: string)
      ensures this.process == process && State() == INITIAL
    {
      this.process := process;
      count, submitted, errors, accepted, handled := None, {}, map[], map[], [];
    }

    method GetNonce() returns (nonce: uint64)
      modifies this`count
      ensures nonce == Watermark(old(count)) && count == Some(nonce)
    {
      if count.None? {
        count := Some(1);
      }
      return count.value;
    }

    method IncNonce()
      modifies this`count
      ensures count == Some(Bump(Watermark(old(count))))
    {
      count := if count.Some? then Some(Bump(count.value)) else Some(2);
    }

    /** The window check, then counting up over consecutive rows, then removal of rows below the counter. */
    method CheckNonce(eventNonce: uint64) returns (ok: bool)
      modifies this`count, this`submitted
      ensures ok <==> eventNonce >= Watermark(old(count)) && eventNonce !in old(submitted)
      ensures !ok ==> count == old(count) && submitted == old(submitted)
      ensures ok ==>
        var (rows, n) := Advance(old(submitted) + {eventNonce}, Watermark(old(count)));
        count == Some(n) && submitted == NotStale(rows, n)
    {
      var before := count;
      var nonce := GetNonce();
      if eventNonce < nonce || eventNonce in submitted {
        count := before;
        return false;
      }
      submitted := submitted + {eventNonce};
      ghost var all, start := submitted, nonce;
      while nonce in submitted
        invariant count == Some(nonce)
        invariant Advance(submitted, nonce) == Advance(all, start)
        decreases |submitted|
      {
        submitted := submitted - {nonce};
        IncNonce();
        nonce := Bump(nonce);
      }
      ghost var rows := submitted;
      while submitted != {}
        invariant count == Some(nonce) && submitted <= rows && forall x :: x in rows && x !in submitted ==> x < nonce
        decreases |submitted|
      {
        var lowest := Lowest(submitted);
        if lowest >= nonce {
          assert submitted == NotStale(rows, nonce);
          return true;
        }
        submitted := submitted - {lowest};
      }
      assert submitted == NotStale(rows, nonce);
      return true;
    }

    method StoreNonce(eventNonce: uint64) returns (ok: bool)
      modifies this`submitted
      ensures ok <==> eventNonce !in old(submitted)
      ensures submitted == old(submitted) + {eventNonce}
    {
      ok := eventNonce !in submitted;
      submitted := submitted + {eventNonce};
    }

    /** `verified` stands for the signature check, `handles` for the handler not aborting. */
    method OnEvent(event: TxEvent, verified: bool, handles: bool)
      modifies this
      ensures State() == Next(process, old(State()), Action.OnEvent(event, verified, handles))
    {
      if !verified || event.process != process {
        return;
      }
      var before := (count, submitted);
      var ok := CheckNonce(event.nonce);
      if !ok || !handles {
        count, submitted := before.0, before.1;
        return;
      }
      accepted, handled := accepted[event.nonce := event], handled + [event];
    }

    method OnErrorEvent(event: TxEvent, verified: bool)
      modifies this
      ensures State() == Next(process, old(State()), Action.OnErrorEvent(event, verified))
    {
      if !verified || event.process != process {
        return;
      }
      var before := (count, submitted);
      var nonce := GetNonce();
      if event.nonce < nonce {
        count := before.0;
        return;
      }
      var ok := StoreNonce(event.nonce);
      if !ok || event.nonce in errors {
        count, submitted := before.0, before.1;
        return;
      }
      errors := errors[event.nonce := event];
      accepted := accepted[event.nonce := event];
    }

    method Exec(authorized: bool, handles: bool)
      modifies this
      ensures State() == Next(process, old(State()), Action.Exec(authorized, handles))
    {
      if !authorized || errors == map[] || !handles {
        return;
      }
      var lowest := Lowest(errors.Keys);
      handled := handled + [errors[lowest]];
      errors := errors - {lowest};
    }
  }

  // ---------- refinement of the plain set ----------

  /** The counter has not wrapped: it and the table say which nonces were accepted. */
  ghost predicate Window(count: Option<uint64>, submitted: set<uint64>, accepted: set<uint64>) {
    var n := Watermark(count);
    && 1 <= n
    && (forall x :: x in submitted ==> n <= x)
    && (forall x: uint64 :: x in accepted <==> 1 <= x < n || x in submitted)
  }

  /** Accepted events are either waiting or were handled, each once. */
  ghost predicate Once(errors: map<uint64, TxEvent>, accepted: map<uint64, TxEvent>, handled: seq<TxEvent>) {
    && (forall x :: x in errors ==> x in accepted && errors[x] == accepted[x])
    && (forall x :: x in accepted ==> accepted[x].nonce == x)
    && (forall i :: 0 <= i < |handled| ==> handled[i].nonce in accepted && accepted[handled[i].nonce] == handled[i] && handled[i].nonce !in errors)
    && (forall i, j :: 0 <= i < j < |handled| ==> handled[i].nonce != handled[j].nonce)
    && (forall x :: x in accepted && x !in errors ==> accepted[x] in handled)
  }

  /** Some nonce of the 64-bit range above zero has not been accepted. */
  ghost predicate Open(accepted: set<uint64>) {
    exists x: uint64 :: 1 <= x && x !in accepted
  }

  /** Every nonce from `n` on has a row. */
  ghost predicate Full(submitted: set<uint64>, n: uint64) {
    forall x: uint64 :: n <= x ==> x in submitted
  }

  /** The rows from `n` on are those below `m`, which are gone, and the `rows` above it. */
  ghost predicate Counted(submitted: set<uint64>, n: uint64, rows: set<uint64>, m: uint64) {
    && n <= m
    && (forall x :: x in rows ==> m < x && x in submitted)
    && (forall x :: x in submitted ==> n <= x < m || x in rows)
    && (forall x: uint64 :: n <= x < m ==> x in submitted)
  }

  /** Counting up stops below the first nonce that has no row, and wraps only if there is none. */
  lemma {:induction false} AdvanceStops(submitted: set<uint64>, n: uint64)
    requires forall x :: x in submitted ==> n <= x
    ensures var (rows, m) := Advance(submitted, n);
      if Full(submitted, n) then m == 0 && rows == {} else Counted(submitted, n, rows, m)
    decreases |submitted|
  {
    hide Full, Counted;
    var (rows, m) := Advance(submitted, n);
    if n !in submitted {
      NothingCounted(submitted, n);
    } else if n == U64 - 1 {
      LastCounted(submitted, n);
    } else {
      var rest := submitted - {n};
      assert forall x :: x in rest ==> n + 1 <= x;
      assert Advance(submitted, n) == Advance(rest, n + 1);
      AdvanceStops(rest, n + 1);
      FullStep(submitted, n);
      if !Full(submitted, n) {
        CountedStep(submitted, n, rows, m);
      }
    }
  }

  lemma NothingCounted(submitted: set<uint64>, n: uint64)
    requires n !in submitted && forall x :: x in submitted ==> n <= x
    ensures !Full(submitted, n) && Counted(submitted, n, submitted, n)
  {
  }

  lemma LastCounted(submitted: set<uint64>, n: uint64)
    requires n in submitted && n == U64 - 1 && forall x :: x in submitted ==> n <= x
    ensures Full(submitted, n) && Advance(submitted, n) == ({}, 0)
  {
    assert submitted - {n} == {};
    assert Advance({}, 0) == ({}, 0);
  }

  lemma CountedStep(submitted: set<uint64>, n: uint64, rows: set<uint64>, m: uint64)
    requires n in submitted && n + 1 < U64 && Counted(submitted - {n}, n + 1, rows, m)
    ensures Counted(submitted, n, rows, m)
  {
    forall x: uint64 | n <= x < m ensures x in submitted {
      assert x == n || x in submitted - {n};
    }
    forall x | x in submitted ensures n <= x < m || x in rows {
      assert x == n || x in submitted - {n};
    }
  }

  lemma FullStep(submitted: set<uint64>, n: uint64)
    requires n in submitted && n + 1 < U64
    ensures Full(submitted, n) <==> Full(submitted - {n}, n + 1)
  {
    if Full(submitted - {n}, n + 1) {
      forall x: uint64 | n <= x ensures x in submitted {
        assert x == n || x in submitted - {n};
      }
    }
  }

  /** The loop that removes stale rows never finds one. */
  lemma StaleLoopIsIdle(s: Proxy, nonce: uint64)
    requires Window(s.count, s.submitted, s.accepted.Keys) && Passes(s, nonce)
    ensures var (rows, n) := Advance(s.submitted + {nonce}, Watermark(s.count)); NotStale(rows, n) == rows
  {
    hide Advance, Full;
    AdvanceStops(s.submitted + {nonce}, Watermark(s.count));
    var (rows, n) := Advance(s.submitted + {nonce}, Watermark(s.count));
    forall x | x in rows ensures x in NotStale(rows, n) {
      assert n == 0 || n < x;
    }
  }

  /** Accepting through the window: it stays right unless this was the last nonce of all. */
  lemma AcceptWindow(s: Proxy, nonce: uint64)
    requires Window(s.count, s.submitted, s.accepted.Keys) && Passes(s, nonce)
    ensures var (rows, n) := Advance(s.submitted + {nonce}, Watermark(s.count));
      if Open(s.accepted.Keys + {nonce}) then Window(Some(n), NotStale(rows, n), s.accepted.Keys + {nonce})
      else n == 0 && rows == {}
  {
    hide Advance, Full, NotStale;
    StaleLoopIsIdle(s, nonce);
    AdvanceStops(s.submitted + {nonce}, Watermark(s.count));
    OpenMeansNotFull(s, nonce);
  }

  lemma OpenMeansNotFull(s: Proxy, nonce: uint64)
    requires Window(s.count, s.submitted, s.accepted.Keys) && Passes(s, nonce)
    ensures Open(s.accepted.Keys + {nonce}) <==> !Full(s.submitted + {nonce}, Watermark(s.count))
  {
    if !Full(s.submitted + {nonce}, Watermark(s.count)) {
      var x: uint64 :| Watermark(s.count) <= x && x !in s.submitted + {nonce};
      assert x !in s.accepted.Keys + {nonce};
    }
  }

  lemma AcceptOnce(s: Proxy, event: TxEvent)
    requires Once(s.errors, s.accepted, s.handled) && event.nonce !in s.accepted
    ensures Once(s.errors, s.accepted[event.nonce := event], s.handled + [event])
    ensures Once(s.errors[event.nonce := event], s.accepted[event.nonce := event], s.handled)
  {
  }

  lemma ExecOnce(s: Proxy, x: uint64)
    requires Once(s.errors, s.accepted, s.handled) && x in s.errors
    ensures Once(s.errors - {x}, s.accepted, s.handled + [s.errors[x]])
  {
  }

  /** What holds in every state until the last nonce of all has gone through the window. */
  ghost predicate Inv(s: Proxy) {
    Window(s.count, s.submitted, s.accepted.Keys) && Once(s.errors, s.accepted, s.handled)
  }

  lemma NextKeepsInv(process: string, s: Proxy, action: Action)
    requires Inv(s) && Open(Next(process, s, action).accepted.Keys)
    ensures Inv(Next(process, s, action))
  {
    hide Advance, NotStale, Once;
    match action
    case OnEvent(event, verified, handles) =>
      if Accepts(process, s, event, verified) && handles {
        AcceptWindow(s, event.nonce);
        AcceptOnce(s, event);
        assert s.accepted[event.nonce := event].Keys == s.accepted.Keys + {event.nonce};
      }
    case OnErrorEvent(event, verified) =>
      if Accepts(process, s, event, verified) {
        AcceptOnce(s, event);
      }
    case Exec(authorized, handles) =>
      if s.errors != map[] {
        ExecOnce(s, Lowest(s.errors.Keys));
      }
  }

  lemma {:induction false} RunKeepsInv(process: string, actions: seq<Action>)
    requires Open(Run(process, actions).accepted.Keys)
    ensures Inv(Run(process, actions))
  {
    if actions != [] {
      hide Inv;
      var before := Run(process, actions[..|actions| - 1]);
      var x: uint64 :| 1 <= x && x !in Run(process, actions).accepted;
      assert x !in before.accepted;
      assert Open(before.accepted.Keys);
      RunKeepsInv(process, actions[..|actions| - 1]);
      NextKeepsInv(process, before, actions[|actions| - 1]);
    }
  }

  // ---------- main results ----------

  /** In every run that has not used up all nonces, the counter and the table are the set of accepted nonces. */
  lemma WindowIsAcceptedSet(process: string, actions: seq<Action>, nonce: uint64)
    requires Open(Run(process, actions).accepted.Keys)
    ensures var s := Run(process, actions);
      && (nonce in s.accepted <==> 1 <= nonce < Watermark(s.count) || nonce in s.submitted)
      && (Passes(s, nonce) <==> 1 <= nonce && nonce !in s.accepted)
      && (Passes(s, nonce) ==> nonce !in s.errors)
  {
    RunKeepsInv(process, actions);
  }

  /** Accepted is handled at most once, and once unless it still waits as an error event. */
  lemma HandledOnce(process: string, actions: seq<Action>)
    requires Open(Run(process, actions).accepted.Keys)
    ensures var s := Run(process, actions);
      && (forall i, j :: 0 <= i < j < |s.handled| ==> s.handled[i].nonce != s.handled[j].nonce)
      && (forall e :: e in s.handled ==> e.nonce in s.accepted && s.accepted[e.nonce] == e)
      && (forall x :: x in s.accepted ==> (s.accepted[x] in s.handled <==> x !in s.errors))
  {
    RunKeepsInv(process, actions);
  }

  /**
    The exact limit. When one action takes the last nonce of all, the check still
    tells accepted nonces apart if that action was an error event, and lets every
    nonce in again if it went through the window.
   */
  lemma LastNonce(process: string, s: Proxy, action: Action)
    requires Inv(s) && Open(s.accepted.Keys) && !Open(Next(process, s, action).accepted.Keys)
    ensures var s' := Next(process, s, action);
      && (action.OnEvent? ==> forall x: uint64 :: Passes(s', x))
      && (action.OnErrorEvent? ==> forall x: uint64 :: !Passes(s', x))
      && !action.Exec?
  {
    hide Advance, Once;
    match action
    case OnEvent(event, verified, handles) =>
      AcceptWindow(s, event.nonce);
      assert s.accepted[event.nonce := event].Keys == s.accepted.Keys + {event.nonce};
    case OnErrorEvent(event, verified) =>
      forall x: uint64 ensures !Passes(Next(process, s, action), x) {
        assert x == 0 || x in Next(process, s, action).accepted;
      }
    case Exec(_, _) =>
  }

  /** In every run, too, no row is ever stale. */
  lemma NeverStale(process: string, actions: seq<Action>, nonce: uint64)
    requires Open(Run(process, actions).accepted.Keys) && Passes(Run(process, actions), nonce)
    ensures var s := Run(process, actions);
      var (rows, n) := Advance(s.submitted + {nonce}, Watermark(s.count));
      NotStale(rows, n) == rows
  {
    hide Advance, NotStale;
    RunKeepsInv(process, actions);
    StaleLoopIsIdle(Run(process, actions), nonce);
  }

  /** The events of nonces one to `k` in order. */
  ghost function Counting(process: string, k: uint64): (actions: seq<Action>)
    decreases k
  {
    if k == 0 then [] else Counting(process, k - 1) + [OnEvent(TxEvent(process, k, ""), true, true)]
  }

  lemma {:induction false} CountingAccepts(process: string, k: uint64)
    ensures forall x: uint64 :: x in Run(process, Counting(process, k)).accepted <==> 1 <= x <= k
    decreases k
  {
    hide Advance, NotStale, Inv;
    if k > 0 {
      var before := Counting(process, k - 1);
      CountingAccepts(process, k - 1);
      assert k !in Run(process, before).accepted;
      WindowIsAcceptedSet(process, before, k);
      var actions := Counting(process, k);
      assert actions[..|actions| - 1] == before;
    }
  }

  /** All nonces in order: the counter ends at zero and every nonce, accepted before, passes again. */
  lemma CounterWraps(process: string, nonce: uint64)
    ensures var s := Run(process, Counting(process, U64 - 1));
      Passes(s, nonce) && (1 <= nonce ==> nonce in s.accepted)
  {
    hide Advance, NotStale, Inv;
    var actions := Counting(process, U64 - 1);
    var before := Counting(process, U64 - 2);
    assert actions[..|actions| - 1] == before;
    CountingAccepts(process, U64 - 1);
    CountingAccepts(process, U64 - 2);
    assert U64 - 1 !in Run(process, before).accepted;
    RunKeepsInv(process, before);
    LastNonce(process, Run(process, before), actions[|actions| - 1]);
  }

  // ---------- who is accepted, and who is handled ----------

  /** An `onevent` of the run brought the event, verified, of the process, and its handler succeeded. */
  ghost predicate ByEvent(process: string, actions: seq<Action>, e: TxEvent) {
    exists i :: 0 <= i < |actions| && actions[i].OnEvent? && actions[i].event == e && actions[i].verified && actions[i].handles && e.process == process
  }

  /** An `onerrorevent` before the n-th action brought it. */
  ghost predicate ByError(process: string, actions: seq<Action>, e: TxEvent, n: nat) {
    exists i :: 0 <= i < n && i < |actions| && actions[i].OnErrorEvent? && actions[i].event == e && actions[i].verified && e.process == process
  }

  /** An authorised `exec`, whose handler succeeded, came after that. */
  ghost predicate ByExec(process: string, actions: seq<Action>, e: TxEvent) {
    exists j: nat :: j < |actions| && actions[j].Exec? && actions[j].authorized && actions[j].handles && ByError(process, actions, e, j)
  }

  ghost predicate Accounted(process: string, actions: seq<Action>, s: Proxy) {
    && (forall x :: x in s.accepted ==> ByEvent(process, actions, s.accepted[x]) || ByError(process, actions, s.accepted[x], |actions|))
    && (forall x :: x in s.errors ==> ByError(process, actions, s.errors[x], |actions|))
    && (forall i :: 0 <= i < |s.handled| ==> ByEvent(process, actions, s.handled[i]) || ByExec(process, actions, s.handled[i]))
  }

  lemma StillBy(process: string, actions: seq<Action>, action: Action, e: TxEvent)
    ensures ByEvent(process, actions, e) ==> ByEvent(process, actions + [action], e)
    ensures ByError(process, actions, e, |actions|) ==> ByError(process, actions + [action], e, |actions|) && ByError(process, actions + [action], e, |actions| + 1)
    ensures ByExec(process, actions, e) ==> ByExec(process, actions + [action], e)
  {
    var all := actions + [action];
    if ByEvent(process, actions, e) {
      var i :| 0 <= i < |actions| && actions[i].OnEvent? && actions[i].event == e && actions[i].verified && actions[i].handles && e.process == process;
      assert all[i] == actions[i];
    }
    if ByError(process, actions, e, |actions|) {
      var i :| 0 <= i < |actions| && actions[i].OnErrorEvent? && actions[i].event == e && actions[i].verified && e.process == process;
      assert all[i] == actions[i];
    }
    if ByExec(process, actions, e) {
      var j: nat :| j < |actions| && actions[j].Exec? && actions[j].authorized && actions[j].handles && ByError(process, actions, e, j);
      var i :| 0 <= i < j && actions[i].OnErrorEvent? && actions[i].event == e && actions[i].verified && e.process == process;
      assert all[i] == actions[i] && all[j] == actions[j] && ByError(process, all, e, j);
    }
  }

  lemma NowBy(process: string, actions: seq<Action>, action: Action, e: TxEvent)
    ensures action == OnEvent(e, true, true) && e.process == process ==> ByEvent(process, actions + [action], e)
    ensures action == OnErrorEvent(e, true) && e.process == process ==> ByError(process, actions + [action], e, |actions| + 1)
    ensures action == Exec(true, true) && ByError(process, actions, e, |actions|) ==> ByExec(process, actions + [action], e)
  {
    StillBy(process, actions, action, e);
    var all, n := actions + [action], |actions|;
    assert all[n] == action;
    if action == Exec(true, true) && ByError(process, actions, e, n) {
      assert n < |all| && all[n].Exec? && all[n].authorized && all[n].handles && ByError(process, all, e, n);
    }
  }

  lemma NextAccounted(process: string, actions: seq<Action>, s: Proxy, action: Action)
    requires Accounted(process, actions, s)
    ensures Accounted(process, actions + [action], Next(process, s, action))
  {
    hide ByEvent, ByError, ByExec, Advance, NotStale, Passes;
    var all, s' := actions + [action], Next(process, s, action);
    forall x | x in s'.accepted
      ensures ByEvent(process, all, s'.accepted[x]) || ByError(process, all, s'.accepted[x], |all|)
    {
      StillBy(process, actions, action, s'.accepted[x]);
      NowBy(process, actions, action, s'.accepted[x]);
    }
    forall x | x in s'.errors ensures ByError(process, all, s'.errors[x], |all|) {
      StillBy(process, actions, action, s'.errors[x]);
      NowBy(process, actions, action, s'.errors[x]);
    }
    forall i | 0 <= i < |s'.handled| ensures ByEvent(process, all, s'.handled[i]) || ByExec(process, all, s'.handled[i]) {
      StillBy(process, actions, action, s'.handled[i]);
      NowBy(process, actions, action, s'.handled[i]);
    }
  }

  lemma {:induction false} RunAccounted(process: string, actions: seq<Action>)
    ensures Accounted(process, actions, Run(process, actions))
  {
    if actions != [] {
      hide Accounted, Next;
      var front, last := actions[..|actions| - 1], actions[|actions| - 1];
      RunAccounted(process, front);
      NextAccounted(process, front, Run(process, front), last);
      assert front + [last] == actions;
    }
  }

  /** In every run: what was accepted came in a verified event of the process, and what was handled by an action that may. */
  lemma OnlyVerified(process: string, actions: seq<Action>, x: uint64, e: TxEvent)
    ensures var s := Run(process, actions);
      && (x in s.accepted ==> ByEvent(process, actions, s.accepted[x]) || ByError(process, actions, s.accepted[x], |actions|))
      && (x in s.errors ==> ByError(process, actions, s.errors[x], |actions|))
      && (e in s.handled ==> ByEvent(process, actions, e) || ByExec(process, actions, e))
  {
    hide ByEvent, ByError, ByExec, Run;
    RunAccounted(process, actions);
  }

  lemma RunOne(process: string, actions: seq<Action>, action: Action)
    ensures Run(process, actions + [action]) == Next(process, Run(process, actions), action)
  {
    assert (actions + [action])[..|actions|] == actions;
  }

  /**
    And all that may be is: a verified event of the process with a nonce from one on that
    was not accepted before is accepted, and handled at once or kept as an error event;
    any other leaves everything as it was.
   */
  lemma EventExactly(process: string, actions: seq<Action>, e: TxEvent, verified: bool, handles: bool)
    requires Open(Run(process, actions).accepted.Keys)
    ensures var s := Run(process, actions);
      var unseen := verified && e.process == process && e.nonce >= 1 && e.nonce !in s.accepted;
      var s1, s2 := Run(process, actions + [OnEvent(e, verified, handles)]), Run(process, actions + [OnErrorEvent(e, verified)]);
      && (if unseen && handles then s1.accepted == s.accepted[e.nonce := e] && s1.handled == s.handled + [e] && s1.errors == s.errors else s1 == s)
      && (if unseen then s2.accepted == s.accepted[e.nonce := e] && s2.handled == s.handled && s2.errors == s.errors[e.nonce := e] else s2 == s)
  {
    hide Advance, NotStale, Run;
    WindowIsAcceptedSet(process, actions, e.nonce);
    RunOne(process, actions, OnEvent(e, verified, handles));
    RunOne(process, actions, OnErrorEvent(e, verified));
  }

  /** An authorised `exec` handles the error event of the lowest nonce and forgets it, if its handler succeeds; otherwise nothing happens. */
  lemma ExecExactly(process: string, actions: seq<Action>, authorized: bool, handles: bool)
    ensures var s, s' := Run(process, actions), Run(process, actions + [Exec(authorized, handles)]);
      if authorized && handles && s.errors != map[] then
        exists x :: x in s.errors && (forall y :: y in s.errors ==> x <= y)
          && s'.handled == s.handled + [s.errors[x]] && s'.errors == s.errors - {x} && s'.accepted == s.accepted
      else s' == s
  {
    hide Run;
    RunOne(process, actions, Exec(authorized, handles));
    var s := Run(process, actions);
    if authorized && handles && s.errors != map[] {
      var x := Lowest(s.errors.Keys);
      assert x in s.errors && forall y :: y in s.errors ==> x <= y;
    }
  }
}
