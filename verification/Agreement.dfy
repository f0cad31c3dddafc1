/**
  What the signing protocol guarantees over whole runs: agreement by quorum
  intersection with its exact threshold, and the life cycle of every event.
 */
module Agreement {
  import opened Bytes
  import opened Modular
  import opened EventCodec
  import opened EventStore
  import opened SigningNetwork

  /** The faulty are members, and the scheme is ideal on the messages of the run. */
  ghost predicate ValidRun(c: Config, steps: seq<Step>) {
    && c.sc.Ideal(Mentioned(steps))
    && c.sc.threshold <= c.sc.size
    && forall i :: i in c.faulty ==> i < c.sc.size
  }

  /** Two full signatures for one nonce of one process always cover the same content. */
  ghost predicate Agrees(c: Config, net: Net) {
    forall e, e' ::
      && Encodable(Unsigned(e)) && Encodable(Unsigned(e')) && KeyOf(e) == KeyOf(e')
      && Quorum(c.sc, net.signed, Message(e)) && Quorum(c.sc, net.signed, Message(e'))
      ==> Unsigned(e) == Unsigned(e')
  }

  // ---------- quorum intersection ----------

  function Members(n: nat): (s: set<nat>)
    ensures forall i: nat :: i in s <==> i < n
  {
    if n == 0 then {} else Members(n - 1) + {n - 1}
  }

  lemma {:induction false} MembersSize(n: nat)
    ensures |Members(n)| == n
  {
    if n != 0 {
      MembersSize(n - 1);
    }
  }

  lemma QuorumsMeet(a: set<nat>, b: set<nat>, faulty: set<nat>, n: nat) returns (i: nat)
    requires a <= Members(n) && b <= Members(n)
    requires |a| + |b| > n + |faulty|
    ensures i in a && i in b && i !in faulty
  {
    MembersSize(n);
    SubsetSize(a + b, Members(n));
    assert |a + b| == |a| + |b| - |a * b|;
    if a * b <= faulty {
      SubsetSize(a * b, faulty);
      assert false;
    }
    i :| i in a * b && i !in faulty;
  }

  /** An honest node signs at most one content per nonce. */
  lemma HonestSignsOnce(c: Config, net: Net, i: nat, e: Event) returns (k: Key)
    requires Inv(c, net) && Honest(c, i) && Encodable(Unsigned(e)) && (i, Message(e)) in net.signed
    ensures k == KeyOf(e) && k in net.stores[i].admitted && net.stores[i].admitted[k] == Unsigned(e)
  {
    var s := net.stores[i];
    assert AdmissionsOk(s) && SignsOwn(net.signed, i, s);
    k :| k in s.admitted && Encodable(s.admitted[k]) && Message(s.admitted[k]) == Message(e);
    assert KeyOf(s.admitted[k]) == k;
    var own := s.admitted[k];
    assert own.signature == [];
    assert Unsigned(own) == own;
    assert Encoded(own) + [] == Encoded(Unsigned(e)) + [];
    EncodeInjective(own, Unsigned(e), [], []);
  }

  lemma AgreementHolds(c: Config, steps: seq<Step>)
    requires ValidRun(c, steps) && 2 * c.sc.threshold > c.sc.size + |c.faulty|
    ensures Agrees(c, Run(c, steps))
  {
    var net := Run(c, steps);
    RunKeepsInv(c, steps);
    forall e, e' |
      && Encodable(Unsigned(e)) && Encodable(Unsigned(e')) && KeyOf(e) == KeyOf(e')
      && Quorum(c.sc, net.signed, Message(e)) && Quorum(c.sc, net.signed, Message(e'))
      ensures Unsigned(e) == Unsigned(e')
    {
      var i := QuorumsMeet(Signers(c.sc, net.signed, Message(e)), Signers(c.sc, net.signed, Message(e')), c.faulty, c.sc.size);
      var k := HonestSignsOnce(c, net, i, e);
      var k' := HonestSignsOnce(c, net, i, e');
    }
  }

  /** The configured threshold, two thirds plus one, is enough for fewer than a third faulty members. */
  lemma ConfiguredThresholdAgrees(c: Config, steps: seq<Step>)
    requires ValidRun(c, steps) && c.sc.threshold == c.sc.size * 2 / 3 + 1 && 3 * |c.faulty| < c.sc.size
    ensures Agrees(c, Run(c, steps))
  {
    AgreementHolds(c, steps);
  }

  /** So no two honest stores ever hold different full signatures, or different signed events, for one nonce. */
  lemma StoresAgree(c: Config, steps: seq<Step>, i: nat, j: nat, k: Key)
    requires ValidRun(c, steps) && 2 * c.sc.threshold > c.sc.size + |c.faulty|
    requires Honest(c, i) && Honest(c, j)
    ensures var s, s' := Run(c, steps).stores[i], Run(c, steps).stores[j];
      && (s.Full(k) && s'.Full(k) ==> s.cells[k] == s'.cells[k])
      && (k in s.signedQueue && k in s'.signedQueue ==> s.signedQueue[k] == s'.signedQueue[k])
  {
    var net := Run(c, steps);
    RunKeepsInv(c, steps);
    AgreementHolds(c, steps);
    var s, s' := net.stores[i], net.stores[j];
    assert StoreOk(c.sc, net.signed, s) && StoreOk(c.sc, net.signed, s');
    if s.Full(k) && s'.Full(k) {
      var e :| KeyOf(e) == k && Certifies(c.sc, net.signed, e, s.cells[k]);
      var e' :| KeyOf(e') == k && Certifies(c.sc, net.signed, e', s'.cells[k]);
      SameContent(c, net, e, e');
      if k in s.signedQueue && k in s'.signedQueue {
        SameContent(c, net, s.signedQueue[k], s'.signedQueue[k]);
      }
    }
  }

  lemma SameContent(c: Config, net: Net, e: Event, e': Event)
    requires Agrees(c, net) && KeyOf(e) == KeyOf(e')
    requires exists cell :: Certifies(c.sc, net.signed, e, cell)
    requires exists cell :: Certifies(c.sc, net.signed, e', cell)
    ensures Unsigned(e) == Unsigned(e') && Message(e) == Message(e')
  {
  }

  // ---------- the threshold is exact ----------

  /** The steps by which members below `n` sign: `a` for `e`, `b` for `e'`, the faulty ones for both. */
  function Script(c: Config, n: nat, a: set<nat>, e: Event, e': Event): seq<Step> {
    if n == 0 then []
    else
      var i := n - 1;
      var mine := if i in a then e else e';
      Script(c, i, a, e, e') +
      if i in c.faulty then [FaultySign(i, Message(e)), FaultySign(i, Message(e'))]
      else [AddProcess(i, mine.process), AdmitEvent(i, mine, "output"), Sign(i, mine)]
  }

  predicate Fresh(e: Event) {
    e.signature == [] && Encodable(e) && e.nonce == 0 && e.timestamp > 0
  }

  lemma RunStep(c: Config, steps: seq<Step>, step: Step)
    ensures Run(c, steps + [step]) == Next(c, Run(c, steps), step)
  {
    assert (steps + [step])[..|steps|] == steps;
  }

  /** An honest node that has seen nothing registers, admits and signs one event. */
  lemma HonestSigns(c: Config, steps: seq<Step>, i: nat, e: Event)
    requires i < c.sc.size && Run(c, steps).stores[i] == EMPTY_STORE && Fresh(e)
    ensures var net, net' := Run(c, steps), Run(c, steps + [AddProcess(i, e.process), AdmitEvent(i, e, "output"), Sign(i, e)]);
      && net'.signed == net.signed + {(i, Message(e))}
      && forall j: nat :: j < c.sc.size && j != i ==> net'.stores[j] == net.stores[j]
  {
    var s1 := steps + [AddProcess(i, e.process)];
    var s2 := s1 + [AdmitEvent(i, e, "output")];
    RunStep(c, steps, AddProcess(i, e.process));
    RunStep(c, s1, AdmitEvent(i, e, "output"));
    RunStep(c, s2, Sign(i, e));
    assert steps + [AddProcess(i, e.process), AdmitEvent(i, e, "output"), Sign(i, e)] == s2 + [Sign(i, e)];
    assert Run(c, s2).stores[i].pending[TimedKeyOf(e)] == e;
  }

  lemma FaultySigns(c: Config, steps: seq<Step>, i: nat, m: bytes, m': bytes)
    requires i < c.sc.size && i in c.faulty
    ensures var net, net' := Run(c, steps), Run(c, steps + [FaultySign(i, m), FaultySign(i, m')]);
      net'.signed == net.signed + {(i, m), (i, m')} && net'.stores == net.stores
  {
    RunStep(c, steps, FaultySign(i, m));
    RunStep(c, steps + [FaultySign(i, m)], FaultySign(i, m'));
    assert steps + [FaultySign(i, m), FaultySign(i, m')] == steps + [FaultySign(i, m)] + [FaultySign(i, m')];
  }

  lemma {:induction false} ScriptSigns(c: Config, n: nat, a: set<nat>, e: Event, e': Event)
    requires n <= c.sc.size && Fresh(e) && Fresh(e')
    ensures var net := Run(c, Script(c, n, a, e, e'));
      && (forall i: nat :: n <= i < c.sc.size ==> net.stores[i] == EMPTY_STORE)
      && (forall i: nat :: i < n && (i in c.faulty || i in a) ==> (i, Message(e)) in net.signed)
      && (forall i: nat :: i < n && (i in c.faulty || i !in a) ==> (i, Message(e')) in net.signed)
  {
    if n != 0 {
      var i := n - 1;
      ScriptSigns(c, i, a, e, e');
      if i in c.faulty {
        FaultySigns(c, Script(c, i, a, e, e'), i, Message(e), Message(e'));
      } else {
        HonestSigns(c, Script(c, i, a, e, e'), i, if i in a then e else e');
      }
    }
  }

  lemma {:induction false} SubsetOfSize(s: set<nat>, k: nat) returns (a: set<nat>)
    requires k <= |s|
    ensures a <= s && |a| == k
  {
    if k == 0 {
      a := {};
    } else {
      var x :| x in s;
      var rest := SubsetOfSize(s - {x}, k - 1);
      a := rest + {x};
    }
  }

  /** Honest members split in two camps, each of which reaches the threshold with the help of the faulty ones. */
  lemma TwoCamps(n: nat, faulty: set<nat>, t: nat) returns (a: set<nat>)
    requires faulty <= Members(n) && t <= n && 2 * t <= n + |faulty|
    ensures a <= Members(n) - faulty
    ensures |faulty + a| >= t && |Members(n) - a| >= t
  {
    var honest := Members(n) - faulty;
    MembersSize(n);
    assert Members(n) == honest + faulty;
    a := SubsetOfSize(honest, if |faulty| <= t then t - |faulty| else 0);
    assert |faulty + a| == |faulty| + |a|;
    assert Members(n) == (Members(n) - a) + a;
  }

  lemma {:induction false} MentionedAll(steps: seq<Step>, more: seq<Step>)
    ensures Mentioned(steps + more) == Mentioned(steps) + Mentioned(more)
  {
    hide Mentions;
    if more == [] {
      assert steps + more == steps;
    } else {
      MentionedAll(steps, more[..|more| - 1]);
      assert (steps + more)[..|steps + more| - 1] == steps + more[..|more| - 1];
    }
  }

  lemma MentionedThree(a: Step, b: Step, c: Step)
    ensures Mentioned([a, b]) == Mentions(a) + Mentions(b)
    ensures Mentioned([a, b, c]) == Mentions(a) + Mentions(b) + Mentions(c)
  {
    hide Mentions;
    assert [a][..0] == [] && [a, b][..1] == [a] && [a, b, c][..2] == [a, b];
    assert Mentioned([a]) == Mentions(a);
  }

  lemma {:induction false} ScriptMentions(c: Config, n: nat, a: set<nat>, e: Event, e': Event)
    ensures Mentioned(Script(c, n, a, e, e')) <= {Message(e), Message(e')}
  {
    hide Mentioned, Encoded;
    if n == 0 {
      NothingMentioned();
    } else {
      var i := n - 1;
      var mine := if i in a then e else e';
      ScriptMentions(c, i, a, e, e');
      if i in c.faulty {
        MentionedAll(Script(c, i, a, e, e'), [FaultySign(i, Message(e)), FaultySign(i, Message(e'))]);
        MentionedThree(FaultySign(i, Message(e)), FaultySign(i, Message(e')), Sign(i, mine));
      } else {
        MentionedAll(Script(c, i, a, e, e'), [AddProcess(i, mine.process), AdmitEvent(i, mine, "output"), Sign(i, mine)]);
        MentionedThree(AddProcess(i, mine.process), AdmitEvent(i, mine, "output"), Sign(i, mine));
      }
    }
  }

  lemma NothingMentioned()
    ensures Mentioned([]) == {}
  {
  }

  /** At or below the bound there is a run, of these two messages only, with full signatures on both. */
  lemma DisagreementBelow(c: Config, e: Event, e': Event) returns (steps: seq<Step>)
    requires c.faulty <= Members(c.sc.size) && c.sc.threshold <= c.sc.size
    requires 2 * c.sc.threshold <= c.sc.size + |c.faulty|
    requires Fresh(e) && Fresh(e')
    ensures Quorum(c.sc, Run(c, steps).signed, Message(e)) && Quorum(c.sc, Run(c, steps).signed, Message(e'))
    ensures Mentioned(steps) <= {Message(e), Message(e')}
  {
    var n := c.sc.size;
    var a := TwoCamps(n, c.faulty, c.sc.threshold);
    steps := Script(c, n, a, e, e');
    ScriptSigns(c, n, a, e, e');
    ScriptMentions(c, n, a, e, e');
    var signed := Run(c, steps).signed;
    SubsetSize(c.faulty + a, Signers(c.sc, signed, Message(e)));
    SubsetSize(Members(n) - a, Signers(c.sc, signed, Message(e')));
  }

  // ---------- ideal schemes exist ----------

  /** The number has a place for its digits in a partial signature. */
  predicate Writable(n: nat) {
    |Minimal(n)| <= PARTIAL_SIZE
  }

  lemma WritableLess(m: nat, n: nat)
    requires m <= n && Writable(n)
    ensures Writable(m)
  {
    hide Minimal, Pow256;
    MinimalLength(m, PARTIAL_SIZE);
    MinimalLength(n, PARTIAL_SIZE);
  }

  lemma {:induction false} Enumerated(messages: set<bytes>) returns (ms: seq<bytes>)
    ensures |ms| == |messages| && NoDuplicates(ms) && forall m :: m in ms <==> m in messages
    decreases |messages|
  {
    if messages == {} {
      ms := [];
    } else {
      var m :| m in messages;
      var rest := Enumerated(messages - {m});
      ms := [m] + rest;
    }
  }

  function IndexOf(ms: seq<bytes>, m: bytes): (i: nat)
    ensures m in ms ==> i < |ms| && ms[i] == m
  {
    if ms == [] || ms[0] == m then 0 else 1 + IndexOf(ms[1..], m)
  }

  /** A scheme that numbers the partials on the messages listed */
  function Numbering(size: nat, threshold: nat, ms: seq<bytes>): Scheme {
    Scheme(size, threshold, (i: nat, m: bytes) => ToBE(i * |ms| + IndexOf(ms, m), PARTIAL_SIZE), m => Zeros(FULL_SIZE))
  }

  lemma SamePlace(i: nat, a: nat, j: nat, b: nat, k: nat)
    requires a < k && b < k && i * k + a == j * k + b
    ensures i == j && a == b
  {
    Apart(i - j, k);
  }

  lemma PlaceBound(i: nat, a: nat, k: nat, size: nat)
    requires a < k && i < size
    ensures i * k + a < size * k
  {
    var d: nat := size - i - 1;
    Distribute(d, i, k);
  }

  lemma Distribute(d: nat, i: nat, k: nat)
    ensures (d + i + 1) * k == d * k + i * k + k && d * k >= 0
  {
  }

  lemma NumberingApart(size: nat, threshold: nat, ms: seq<bytes>, i: nat, m: bytes, j: nat, m': bytes)
    requires Writable(size * |ms|) && i < size && j < size && m in ms && m' in ms
    requires Numbering(size, threshold, ms).partial(i, m) == Numbering(size, threshold, ms).partial(j, m')
    ensures i == j && m == m'
  {
    var a, b, k := IndexOf(ms, m), IndexOf(ms, m'), |ms|;
    hide ToBE, FromBE, Writable, IndexOf;
    PlaceBound(i, a, k, size);
    PlaceBound(j, b, k, size);
    SameNumber(i * k + a, j * k + b, size * k);
    SamePlace(i, a, j, b, k);
  }

  lemma SameNumber(x: nat, y: nat, n: nat)
    requires x < n && y < n && Writable(n) && ToBE(x, PARTIAL_SIZE) == ToBE(y, PARTIAL_SIZE)
    ensures x == y
  {
    hide ToBE, FromBE, Pow256, Minimal;
    MinimalLength(n, PARTIAL_SIZE);
    FromToBE(x, PARTIAL_SIZE);
    FromToBE(y, PARTIAL_SIZE);
  }

  lemma NumberingSized(size: nat, threshold: nat, ms: seq<bytes>)
    ensures Numbering(size, threshold, ms).Sized()
  {
    hide ToBE, IndexOf;
    var sc := Numbering(size, threshold, ms);
    forall i: nat, m: bytes ensures |sc.partial(i, m)| == PARTIAL_SIZE {
      assert sc.partial(i, m) == ToBE(i * |ms| + IndexOf(ms, m), PARTIAL_SIZE);
    }
  }

  /** For any number of members, threshold and set of messages that 66 bytes can tell apart, there is an ideal scheme. */
  lemma IdealSchemeExists(size: nat, threshold: nat, messages: set<bytes>) returns (sc: Scheme)
    requires threshold >= 1 && Writable(size * |messages|)
    ensures sc.size == size && sc.threshold == threshold && sc.Ideal(messages)
  {
    hide ToBE, FromBE, Writable, IndexOf;
    var ms := Enumerated(messages);
    sc := Numbering(size, threshold, ms);
    NumberingSized(size, threshold, ms);
    assert sc.size == size && sc.threshold == threshold;
    hide Numbering;
    forall i: nat, m: bytes, j: nat, m': bytes | i < size && j < size && m in messages && m' in messages && sc.partial(i, m) == sc.partial(j, m')
      ensures i == j && m == m'
    {
      NumberingApart(size, threshold, ms, i, m, j, m');
    }
  }

  /** What agreement in all runs of all ideal schemes means for members, threshold and faulty members. */
  ghost predicate AlwaysAgrees(size: nat, threshold: nat, faulty: set<nat>) {
    forall sc: Scheme, steps: seq<Step> ::
      sc.size == size && sc.threshold == threshold && sc.Ideal(Mentioned(steps)) ==> Agrees(Config(sc, faulty), Run(Config(sc, faulty), steps))
  }

  /**
    Agreement in every run holds exactly when twice the threshold exceeds members plus
    faulty members. The size is such that 66 bytes can tell all members' partials on two messages apart.
   */
  lemma AgreementExactly(size: nat, threshold: nat, faulty: set<nat>)
    requires 1 <= threshold <= size && faulty <= Members(size) && Writable(2 * size)
    ensures AlwaysAgrees(size, threshold, faulty) <==> 2 * threshold > size + |faulty|
  {
    hide Run, Mentioned, Agrees, Writable, Encoded;
    if 2 * threshold > size + |faulty| {
      forall sc: Scheme, steps: seq<Step> | sc.size == size && sc.threshold == threshold && sc.Ideal(Mentioned(steps))
        ensures Agrees(Config(sc, faulty), Run(Config(sc, faulty), steps))
      {
        AgreementHolds(Config(sc, faulty), steps);
      }
    } else {
      var sc, steps := DisagreeingRun(size, threshold, faulty);
      assert sc.Ideal(Mentioned(steps)) && !Agrees(Config(sc, faulty), Run(Config(sc, faulty), steps));
    }
  }

  /** The witness: two events of one nonce that differ in their time stamps. */
  lemma DisagreeingRun(size: nat, threshold: nat, faulty: set<nat>) returns (sc: Scheme, steps: seq<Step>)
    requires 1 <= threshold <= size && faulty <= Members(size) && Writable(2 * size)
    requires 2 * threshold <= size + |faulty|
    ensures sc.size == size && sc.threshold == threshold && sc.Ideal(Mentioned(steps))
    ensures !Agrees(Config(sc, faulty), Run(Config(sc, faulty), steps))
  {
    hide Run, Mentioned, Writable, Message, Quorum, Scheme.Ideal, Agrees, Fresh, Members;
    var e, e' := TwoEvents();
    TwoMessages(size, Message(e), Message(e'));
    WritableLess(size * |{Message(e), Message(e')}|, 2 * size);
    sc := IdealSchemeExists(size, threshold, {Message(e), Message(e')});
    steps := DisagreementBelow(Config(sc, faulty), e, e');
    IdealOnFewer(sc, {Message(e), Message(e')}, Mentioned(steps));
    TwoContents(Config(sc, faulty), Run(Config(sc, faulty), steps), e, e');
  }

  lemma TwoEvents() returns (e: Event, e': Event)
    ensures Fresh(e) && Fresh(e') && KeyOf(e) == KeyOf(e') && e != e'
  {
    e := Event(Zeros(16), Zeros(16), [], 0, 0, [], 1, 0, []);
    e' := e.(timestamp := 2);
  }

  lemma TwoMessages(size: nat, m: bytes, m': bytes)
    ensures size * |{m, m'}| <= 2 * size
  {
    var k := |{m, m'}|;
    assert k <= 2;
    Distribute(2 - k, 0, size);
    assert 2 * size == k * size + (2 - k) * size;
  }

  lemma IdealOnFewer(sc: Scheme, messages: set<bytes>, fewer: set<bytes>)
    requires sc.Ideal(messages) && fewer <= messages
    ensures sc.Ideal(fewer)
  {
  }

  lemma TwoContents(c: Config, net: Net, e: Event, e': Event)
    requires Fresh(e) && Fresh(e') && KeyOf(e) == KeyOf(e') && e != e'
    requires Quorum(c.sc, net.signed, Message(e)) && Quorum(c.sc, net.signed, Message(e'))
    ensures !Agrees(c, net)
  {
    hide Encodable, Encoded, Quorum;
    assert Unsigned(e) == e && Unsigned(e') == e';
  }
}
