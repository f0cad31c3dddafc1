/**
  The two signing loops of the machine, one round each, on a node's store, and how
  they appear as steps of the network.
 */
module Signer {
  import opened Bytes
  import opened EventCodec
  import opened EventStore
  import opened SigningNetwork
  import opened Agreement
  import opened Lifecycle

  /** The event's trailing eight bytes are a time stamp that is not part of it. */
  const STAMP_SIZE := 8

  /** What receiving a message does to the store; bytes that do not decode do nothing. */
  ghost function Taken(sc: Scheme, signed: Signatures, s: Store, b: bytes): Store {
    if |b| < STAMP_SIZE then s else
    match Decoded(b[..|b| - STAMP_SIZE])
    case None => s
    case Some(e) => Received(sc, signed, s, e, e.signature)
  }

  /** The messages the loop panics on: too short, or an event of a known process that cannot be encoded again. */
  ghost predicate Stops(s: Store, b: bytes) {
    || |b| < STAMP_SIZE
    || match Decoded(b[..|b| - STAMP_SIZE])
       case None => false
       case Some(e) => |e.extra| <= EXTRA_MAX_SIZE && e.process in s.nonces && !Encodable(Unsigned(e))
  }

  /** That is, one with more than 64 members, or a threshold above their number. */
  lemma StopsExactly(s: Store, b: bytes)
    ensures Stops(s, b) <==>
      || |b| < STAMP_SIZE
      || match Decoded(b[..|b| - STAMP_SIZE])
         case None => false
         case Some(e) =>
           |e.extra| <= EXTRA_MAX_SIZE && e.process in s.nonces && (|e.members| > MEMBERS_MAX || e.threshold > |e.members|)
  {
    hide Decoded, Minimal;
    if |b| >= STAMP_SIZE && Decoded(b[..|b| - STAMP_SIZE]).Some? {
      DecodedAmountFits(b[..|b| - STAMP_SIZE]);
    }
  }

  /** An event of a process with no members and a threshold of one */
  function Unencodable(pid: uuid): Event {
    Event(pid, Zeros(16), [], 1, 0, [], 1, 0, [])
  }

  /** Such messages exist for every process a node knows. */
  lemma StoppingMessage(s: Store, pid: uuid)
    requires pid in s.nonces
    ensures Stops(s, Encoded(Unencodable(pid)) + Zeros(STAMP_SIZE))
  {
    hide Encoded, Decoded;
    var e := Unencodable(pid);
    var b := Encoded(e) + Zeros(STAMP_SIZE);
    assert b[..|b| - STAMP_SIZE] == Encoded(e);
    UnencodableDecodes(pid);
    StopsExactly(s, b);
  }

  lemma UnencodableDecodes(pid: uuid)
    ensures Decoded(Encoded(Unencodable(pid))) == Some(Unencodable(pid))
  {
    hide Cat, Parsed;
    var e := Unencodable(pid);
    ParsedFields(Fields(e), e.process, e.nonce, e.asset, e.timestamp, e.members, e.threshold, []);
    FromMinimal(e.amount);
    assert Encoded(e) + [] == Encoded(e);
  }

  lemma DecodedAmountFits(b: bytes)
    requires Decoded(b).Some?
    ensures |Minimal(Decoded(b).value.amount)| <= INT_MAX
  {
    hide Minimal, FromBE, Pow256;
    var b3 := b[40..];
    var digits := ReadSized(b3).value.0;
    Pow256Values();
    FromBEBound(b3[..2]);
    FromBEBound(digits);
    MinimalLength(FromBE(digits), |digits|);
  }

  /** One round of `loopReceiveGroupMessages`. `signed` decides which signatures verify; false is a panic. */
  method ReceiveGroupMessage(node: Node, signed: Signatures, b: bytes) returns (ok: bool)
    requires node.sc.Sized()
    modifies node
    ensures node.State() == Taken(node.sc, signed, old(node.State()), b)
    ensures !ok <==> Stops(old(node.State()), b)
  {
    hide Decoded, Encoded, Append, WriteSigned, Quorum;
    if |b| < STAMP_SIZE {
      return false;
    }
    var decoded := DecodeEvent(b[..|b| - STAMP_SIZE]);
    if decoded.None? {
      return true;
    }
    var evt := decoded.value;
    if |evt.extra| > EXTRA_MAX_SIZE || evt.process !in node.nonces {
      return true;
    }
    var sig := evt.signature;
    var msg := Encode(evt.(signature := []));
    if msg.None? {
      return false;
    }
    var partials, fullSignature := node.ReadGroupEventSignatures(KeyOf(evt));
    if |sig| == FULL_SIZE {
      if sig == node.sc.full(msg.value) && Quorum(node.sc, signed, msg.value) {
        ok := node.WriteSignedGroupEventAndExpirePending(evt);
        assert evt.(signature := sig) == evt;
        return ok;
      }
    } else if !fullSignature && KnownPartial(node.sc, signed, msg.value, sig) {
      node.AppendPendingGroupEventSignature(evt, sig);
    }
    return true;
  }

  /** A pending event as listed: whether it was not sent within the last hour, and the time it would be sent at. */
  datatype Listed = Listed(event: Event, due: bool, stamp: uint64)

  function Due(list: seq<Listed>): seq<Listed> {
    if list == [] then []
    else
      var last := list[|list| - 1];
      if last.due then Due(list[..|list| - 1]) + [last] else Due(list[..|list| - 1])
  }

  lemma DueOne(list: seq<Listed>, l: Listed)
    ensures Due(list + [l]) == if l.due then Due(list) + [l] else Due(list)
  {
    assert (list + [l])[..|list|] == list;
  }

  /** The events due, in the order listed */
  lemma {:induction false} DueExactly(list: seq<Listed>, more: seq<Listed>)
    ensures Due(list + more) == Due(list) + Due(more)
    ensures |more| == 1 ==> Due(more) == if more[0].due then more else []
  {
    if more == [] {
      assert list + more == list;
    } else {
      var front, last := more[..|more| - 1], more[|more| - 1];
      assert more == front + [last];
      assert list + more == (list + front) + [last];
      DueOne(front, last);
      DueOne(list + front, last);
      DueExactly(list, front);
      hide Due;
      assert (Due(list) + Due(front)) + [last] == Due(list) + (Due(front) + [last]);
      if |more| == 1 {
        DueNone();
        assert front == [] && more == [last];
      }
    }
  }

  lemma DueNone()
    ensures Due([]) == []
  {
  }

  /** The store after the member's own partials for some events were added. */
  function SignedAll(sc: Scheme, i: nat, s: Store, list: seq<Listed>): Store {
    if list == [] then s
    else
      var e := list[|list| - 1].event;
      Append(sc, SignedAll(sc, i, s, list[..|list| - 1]), e, sc.partial(i, Message(e)))
  }

  /** What is queued for the other members: the event with the member's partial, and the time. */
  function Packet(sc: Scheme, i: nat, l: Listed): bytes {
    Encoded(l.event.(signature := sc.partial(i, Message(l.event)))) + ToBE(l.stamp, STAMP_SIZE)
  }

  function Packets(sc: Scheme, i: nat, list: seq<Listed>): seq<bytes> {
    if list == [] then [] else Packets(sc, i, list[..|list| - 1]) + [Packet(sc, i, list[|list| - 1])]
  }

  /** One round of `loopSignGroupEvents`. It panics on an event that carries a signature or cannot be encoded. */
  method SignGroupEvents(node: Node, i: nat, list: seq<Listed>) returns (sent: seq<bytes>, reached: nat)
    requires node.sc.Sized()
    modifies node
    ensures reached <= |list|
    ensures reached < |list| ==> var l := list[reached]; l.due && (l.event.signature != [] || !Encodable(l.event))
    ensures node.State() == SignedAll(node.sc, i, old(node.State()), Due(list[..reached]))
    ensures sent == Packets(node.sc, i, Due(list[..reached]))
  {
    hide Append, Encoded, Encodable, Packet;
    sent, reached := [], 0;
    while reached < |list|
      invariant reached <= |list|
      invariant node.State() == SignedAll(node.sc, i, old(node.State()), Due(list[..reached]))
      invariant sent == Packets(node.sc, i, Due(list[..reached]))
    {
      var l := list[reached];
      ghost var before := Due(list[..reached]);
      assert list[..reached + 1][..reached] == list[..reached];
      if l.due {
        if l.event.signature != [] {
          return;
        }
        var msg := Encode(l.event);
        if msg.None? {
          return;
        }
        var partial := node.sc.partial(i, msg.value);
        SignedEncodable(l.event, partial);
        var packet := Encode(l.event.(signature := partial));
        PacketIs(node.sc, i, l);
        assert (before + [l])[..|before|] == before;
        sent := sent + [packet.value + ToBE(l.stamp, STAMP_SIZE)];
        node.AppendPendingGroupEventSignature(l.event, partial);
      }
      reached := reached + 1;
    }
  }

  lemma SignedEncodable(e: Event, partial: bytes)
    requires Encodable(e) && |partial| == PARTIAL_SIZE
    ensures Encodable(e.(signature := partial))
  {
  }

  lemma PacketIs(sc: Scheme, i: nat, l: Listed)
    ensures Packet(sc, i, l) == Encoded(l.event.(signature := sc.partial(i, Message(l.event)))) + ToBE(l.stamp, STAMP_SIZE)
  {
  }

  /** Signing a local event is two steps of the network: the signature comes to exist, and the signer takes it in. */
  lemma SigningIsSteps(c: Config, net: Net, i: nat, e: Event)
    requires c.sc.Sized() && i < c.sc.size && |net.stores| == c.sc.size && AdmissionsOk(net.stores[i])
    requires e in net.stores[i].admitted.Values && Encodable(e)
    ensures var net' := Next(c, Next(c, net, Sign(i, e)), Receive(i, e, c.sc.partial(i, Message(e))));
      net' == Net(net.stores[i := Append(c.sc, net.stores[i], e, c.sc.partial(i, Message(e)))], net.signed + {(i, Message(e))})
  {
    hide Encoded, WriteSigned, WritePartials, KeepValid;
    var s := net.stores[i];
    var k :| k in s.admitted && s.admitted[k] == e;
    assert AdmissionsOk(s) && KeyOf(s.admitted[k]) == k;
    assert Unsigned(e) == e;
  }

  /** And what the others get is that event with that partial, whatever the time. */
  lemma PacketReceived(sc: Scheme, i: nat, l: Listed, signed: Signatures, s: Store)
    requires sc.Sized() && l.event.signature == [] && Encodable(l.event)
    ensures var partial := sc.partial(i, Message(l.event));
      Taken(sc, signed, s, Packet(sc, i, l)) == Received(sc, signed, s, l.event.(signature := partial), partial)
  {
    hide Encoded, Decoded, Received;
    var e := l.event.(signature := sc.partial(i, Message(l.event)));
    SignedEncodable(l.event, e.signature);
    PacketIs(sc, i, l);
    assert Packet(sc, i, l)[..|Packet(sc, i, l)| - STAMP_SIZE] == Encoded(e);
    DecodeUndoesEncode(e, []);
    assert Encoded(e) + [] == Encoded(e);
  }

  /** The network's steps for a round of signing */
  function RoundSteps(c: Config, i: nat, list: seq<Listed>): seq<Step> {
    if list == [] then []
    else
      var e := list[|list| - 1].event;
      RoundSteps(c, i, list[..|list| - 1]) + [Sign(i, e), Receive(i, e, c.sc.partial(i, Message(e)))]
  }

  /** A round of signing local events is those steps: each is signed, and the signer takes in its own partials. */
  lemma {:induction false} RoundIsSteps(c: Config, steps: seq<Step>, i: nat, list: seq<Listed>)
    requires c.sc.Sized() && i < c.sc.size
    requires forall l :: l in list ==> l.event in Run(c, steps).stores[i].admitted.Values && Encodable(l.event)
    ensures var net, net' := Run(c, steps), Run(c, steps + RoundSteps(c, i, list));
      && net'.stores == net.stores[i := SignedAll(c.sc, i, net.stores[i], list)]
      && net'.signed == net.signed + (set l | l in list :: (i, Message(l.event)))
      && net'.stores[i].admitted == net.stores[i].admitted
  {
    hide Encodable, Message, Append, Next;
    var net := Run(c, steps);
    if list == [] {
      assert steps + [] == steps;
      assert net.stores[i := net.stores[i]] == net.stores;
    } else {
      var front, last := list[..|list| - 1], list[|list| - 1];
      var e := last.event;
      assert list == front + [last];
      RoundIsSteps(c, steps, i, front);
      var before := steps + RoundSteps(c, i, front);
      var mid := Run(c, before);
      RunOrderly(c, before, i);
      AdmissionsOf(mid.stores[i]);
      SigningIsSteps(c, mid, i, e);
      var receive := Receive(i, e, c.sc.partial(i, Message(e)));
      assert steps + RoundSteps(c, i, list) == before + [Sign(i, e)] + [receive];
      RunStep(c, before, Sign(i, e));
      RunStep(c, before + [Sign(i, e)], receive);
      AppendAdmitted(c.sc, mid.stores[i], e, c.sc.partial(i, Message(e)));
    }
  }

  lemma AdmissionsOf(s: Store)
    requires Orderly(s)
    ensures AdmissionsOk(s)
  {
  }

  lemma AppendAdmitted(sc: Scheme, s: Store, e: Event, p: bytes)
    ensures Append(sc, s, e, p).admitted == s.admitted
  {
    hide KeepValid, Encoded, Join;
  }
}
