/**
  One node's durable event store and the signing operations on it.

  The database is a set of maps, one per key prefix; every `Update` transaction
  is one atomic step. The threshold signature scheme is abstract.
 */
module EventStore {
  import opened Bytes
  import opened EventCodec

  const PARTIAL_SIZE := 66
  const FULL_SIZE := 64

  /** Threshold signatures among members `0 .. size - 1`. */
  datatype Scheme = Scheme(size: nat, threshold: nat, partial: (nat, bytes) -> bytes, full: bytes -> bytes) {

    /** The two kinds of signature differ in length. */
    ghost predicate Sized() {
      && (forall i, m :: |partial(i, m)| == PARTIAL_SIZE)
      && (forall m :: |full(m)| == FULL_SIZE)
    }

    /** On the messages in use, partials are unique to a member and a message. */
    ghost predicate Ideal(messages: set<bytes>) {
      && threshold >= 1 && Sized()
      && (forall i: nat, m, j: nat, m' {:trigger partial(i, m), partial(j, m')} ::
           i < size && j < size && m in messages && m' in messages && partial(i, m) == partial(j, m') ==> i == j && m == m')
    }

    predicate VerifyPartial(msg: bytes, p: bytes) {
      exists i | 0 <= i < size :: p == partial(i, msg)
    }
  }

  type Key = (uuid, uint64)
  type TimedKey = (uint64, uuid, uint64)

  function KeyOf(e: Event): Key {
    (e.process, e.nonce)
  }

  function TimedKeyOf(e: Event): TimedKey {
    (e.timestamp, e.process, e.nonce)
  }

  /** The bytes that members sign. */
  function Message(e: Event): bytes {
    Encoded(Unsigned(e))
  }

  /**
    `identifiers` holds the outputs already turned into events and `nonces` the next
    nonce of each process. `admitted` and `entered` are history: the local event of
    each nonce, and the order in which keys entered the signed queue.
   */
  datatype Store = Store(
    identifiers: set<string>,
    nonces: map<uuid, nat>,
    pending: map<TimedKey, Event>,
    cells: map<Key, bytes>,
    signedQueue: map<Key, Event>,
    admitted: map<Key, Event>,
    entered: seq<Key>)
  {
    predicate Full(k: Key) {
      k in cells && |cells[k]| == FULL_SIZE
    }
  }

  const EMPTY_STORE := Store({}, map[], map[], map[], map[], map[], [])

  // ---------- signature cells ----------

  function Join(ps: seq<bytes>): bytes {
    if ps == [] then [] else Join(ps[..|ps| - 1]) + ps[|ps| - 1]
  }

  function Chunks(val: bytes): (ps: seq<bytes>)
    ensures |ps| == |val| / PARTIAL_SIZE
    ensures forall i :: 0 <= i < |ps| ==> |ps[i]| == PARTIAL_SIZE
  {
    seq(|val| / PARTIAL_SIZE, i requires 0 <= i < |val| / PARTIAL_SIZE => val[i * PARTIAL_SIZE..(i + 1) * PARTIAL_SIZE])
  }

  predicate AllPartials(ps: seq<bytes>) {
    forall i :: 0 <= i < |ps| ==> |ps[i]| == PARTIAL_SIZE
  }

  lemma {:induction false} JoinLength(ps: seq<bytes>)
    requires AllPartials(ps)
    ensures |Join(ps)| == PARTIAL_SIZE * |ps|
    ensures |Join(ps)| != FULL_SIZE
  {
    if ps != [] {
      JoinLength(ps[..|ps| - 1]);
    }
  }

  /** A list of partials reads back exactly. */
  lemma {:induction false} ChunksJoin(ps: seq<bytes>)
    requires AllPartials(ps)
    ensures Chunks(Join(ps)) == ps
  {
    JoinLength(ps);
    if ps != [] {
      var front := ps[..|ps| - 1];
      ChunksJoin(front);
      JoinLength(front);
      forall i | 0 <= i < |ps|
        ensures Chunks(Join(ps))[i] == ps[i]
      {
        if i < |front| {
          assert Chunks(Join(front))[i] == Join(front)[i * PARTIAL_SIZE..(i + 1) * PARTIAL_SIZE];
        }
      }
    }
  }

  /** The partials stored for a nonce, as `ReadGroupEventSignatures` returns them. */
  function Partials(s: Store, k: Key): seq<bytes> {
    if k in s.cells then Chunks(s.cells[k]) else []
  }

  function KeepValid(sc: Scheme, msg: bytes, ps: seq<bytes>): (kept: seq<bytes>)
    ensures forall p :: p in kept <==> p in ps && sc.VerifyPartial(msg, p)
  {
    if ps == [] then []
    else
      var front := KeepValid(sc, msg, ps[..|ps| - 1]);
      var last := ps[|ps| - 1];
      assert forall p :: p in ps <==> p in ps[..|ps| - 1] || p == last;
      if sc.VerifyPartial(msg, last) then front + [last] else front
  }

  predicate NoDuplicates<T(==)>(s: seq<T>) {
    forall i, j :: 0 <= i < j < |s| ==> s[i] != s[j]
  }

  lemma {:induction false} KeepValidDistinct(sc: Scheme, msg: bytes, ps: seq<bytes>)
    requires NoDuplicates(ps)
    ensures NoDuplicates(KeepValid(sc, msg, ps))
  {
    if ps != [] {
      KeepValidDistinct(sc, msg, ps[..|ps| - 1]);
    }
  }

  // ---------- transactions ----------

  predicate CanAdmit(s: Store, e: Event, id: string) {
    && e.timestamp > 0
    && id !in s.identifiers
    && e.process in s.nonces
    && s.nonces[e.process] == e.nonce
  }

  /** `WritePendingGroupEventAndNonce`, where it does not panic. */
  function Admit(s: Store, e: Event, id: string): Store
    requires CanAdmit(s, e, id)
  {
    s.(identifiers := s.identifiers + {id},
       nonces := s.nonces[e.process := e.nonce + 1],
       pending := if s.Full(KeyOf(e)) then s.pending else s.pending[TimedKeyOf(e) := e],
       admitted := s.admitted[KeyOf(e) := e])
  }

  /** `WritePendingGroupEventSignatures` */
  function WritePartials(s: Store, k: Key, ps: seq<bytes>): Store {
    if s.Full(k) then s else s.(cells := s.cells[k := Join(ps)])
  }

  /** `WriteSignedGroupEventAndExpirePending`, for an event that carries a full signature */
  function WriteSigned(s: Store, e: Event): Store {
    if s.Full(KeyOf(e)) then s else
      s.(pending := s.pending - {TimedKeyOf(e)},
         cells := s.cells[KeyOf(e) := e.signature],
         signedQueue := s.signedQueue[KeyOf(e) := e],
         entered := s.entered + [KeyOf(e)])
  }

  function Keys(events: seq<Event>): set<Key> {
    set e | e in events :: KeyOf(e)
  }

  /** `ExpireGroupEventsWithCost`, without the credit */
  function Expire(s: Store, events: seq<Event>): Store {
    s.(signedQueue := s.signedQueue - Keys(events))
  }

  /** `appendPendingGroupEventSignature` */
  function Append(sc: Scheme, s: Store, e: Event, p: bytes): Store {
    if s.Full(KeyOf(e)) then s else
    var kept := KeepValid(sc, Message(e), Partials(s, KeyOf(e)));
    if p in kept then s else
    if |kept| + 1 < sc.threshold then WritePartials(s, KeyOf(e), kept + [p])
    else WriteSigned(s, e.(signature := sc.full(Message(e))))
  }

  // ---------- the store object ----------

  class Node {
    const sc: Scheme
    var identifiers: set<string>
    var nonces: map<uuid, nat>
    var pending: map<TimedKey, Event>
    var cells: map<Key, bytes>
    var signedQueue: map<Key, Event>
    ghost var admitted: map<Key, Event>
    ghost var entered: seq<Key>

    ghost function State(): Store
      reads this
    {
      Store(identifiers, nonces, pending, cells, signedQueue, admitted, entered)
    }

    constructor (sc: Scheme)
      ensures this.sc == sc && State() == EMPTY_STORE
    {
      this.sc := sc;
      identifiers, nonces, pending, cells, signedQueue := {}, map[], map[], map[], map[];
      admitted, entered := map[], [];
    }

    /** Returns false where the Go code panics; the transaction is then discarded. */
    method WritePendingGroupEventAndNonce(e: Event, id: string) returns (ok: bool)
      modifies this
      ensures ok == CanAdmit(old(State()), e, id)
      ensures State() == if ok then Admit(old(State()), e, id) else old(State())
    {
      if e.timestamp <= 0 || id in identifiers {
        return false;
      }
      if e.process !in nonces || nonces[e.process] != e.nonce {
        return false;
      }
      identifiers := identifiers + {id};
      nonces := nonces[e.process := nonces[e.process] + 1];
      admitted := admitted[KeyOf(e) := e];
      var full := CheckSignedEvent(KeyOf(e));
      if !full {
        pending := pending[TimedKeyOf(e) := e];
      }
      return true;
    }

    method CheckSignedEvent(k: Key) returns (full: bool)
      ensures full == State().Full(k)
    {
      full := k in cells && |cells[k]| == FULL_SIZE;
    }

    /** A 64-byte value is the full signature; anything else is a list of 66-byte partials. */
    method ReadGroupEventSignatures(k: Key) returns (sigs: seq<bytes>, full: bool)
      ensures full == State().Full(k)
      ensures sigs == if full then [State().cells[k]] else Partials(State(), k)
    {
      if k !in cells {
        return [], false;
      }
      var val := cells[k];
      if |val| == FULL_SIZE {
        return [val], true;
      }
      sigs := [];
      var count := |val| / PARTIAL_SIZE;
      for i := 0 to count
        invariant sigs == Chunks(val)[..i]
      {
        sigs := sigs + [val[i * PARTIAL_SIZE..(i + 1) * PARTIAL_SIZE]];
      }
      return sigs, false;
    }

    method WritePendingGroupEventSignatures(k: Key, ps: seq<bytes>) returns (ok: bool)
      modifies this`cells
      ensures ok == (State().Full(k) || AllPartials(ps))
      ensures State() == if ok then WritePartials(old(State()), k, ps) else old(State())
    {
      var full := CheckSignedEvent(k);
      if full {
        return true;
      }
      var val: bytes := [];
      for i := 0 to |ps|
        invariant AllPartials(ps[..i])
        invariant val == Join(ps[..i])
      {
        if |ps[i]| != PARTIAL_SIZE {
          return false;
        }
        assert ps[..i + 1][..i] == ps[..i];
        val := val + ps[i];
      }
      assert ps[..|ps|] == ps;
      cells := cells[k := val];
      return true;
    }

    method WriteSignedGroupEventAndExpirePending(e: Event) returns (ok: bool)
      modifies this
      ensures ok == (|e.signature| == FULL_SIZE)
      ensures State() == if ok then WriteSigned(old(State()), e) else old(State())
    {
      if |e.signature| != FULL_SIZE {
        return false;
      }
      var full := CheckSignedEvent(KeyOf(e));
      if full {
        return true;
      }
      pending := pending - {TimedKeyOf(e)};
      cells := cells[KeyOf(e) := e.signature];
      signedQueue := signedQueue[KeyOf(e) := e];
      entered := entered + [KeyOf(e)];
      return true;
    }

    /** Expires one process's events; returns false, changing nothing, where the Go code panics. */
    method ExpireGroupEvents(events: seq<Event>) returns (ok: bool)
      modifies this`signedQueue
      ensures ok == (forall e, e' :: e in events && e' in events ==> e.process == e'.process)
      ensures State() == if ok then Expire(old(State()), events) else old(State())
    {
      var queue := signedQueue;
      for i := 0 to |events|
        invariant forall j :: 0 <= j < i ==> events[j].process == events[0].process
        invariant queue == signedQueue - Keys(events[..i])
      {
        if events[i].process != events[0].process {
          return false;
        }
        assert Keys(events[..i + 1]) == Keys(events[..i]) + {KeyOf(events[i])};
        queue := queue - {KeyOf(events[i])};
      }
      assert events[..|events|] == events;
      signedQueue := queue;
      return true;
    }

    method RemoveInvalidPartials(msg: bytes, inputs: seq<bytes>) returns (kept: seq<bytes>)
      ensures kept == KeepValid(sc, msg, inputs)
    {
      kept := [];
      for i := 0 to |inputs|
        invariant kept == KeepValid(sc, msg, inputs[..i])
      {
        assert inputs[..i + 1][..i] == inputs[..i];
        if sc.VerifyPartial(msg, inputs[i]) {
          kept := kept + [inputs[i]];
        }
      }
      assert inputs[..|inputs|] == inputs;
    }

    method CheckSignedWith(ps: seq<bytes>, p: bytes) returns (found: bool)
      ensures found == (p in ps)
    {
      for i := 0 to |ps|
        invariant p !in ps[..i]
      {
        if ps[i] == p {
          return true;
        }
      }
      return false;
    }

    /** The partial has been verified by the caller, or made by this node. */
    method AppendPendingGroupEventSignature(e: Event, p: bytes)
      requires sc.Sized() && |p| == PARTIAL_SIZE
      modifies this
      ensures State() == Append(sc, old(State()), e, p)
    {
      var sigs, full := ReadGroupEventSignatures(KeyOf(e));
      if full {
        return;
      }
      var kept := RemoveInvalidPartials(Message(e), sigs);
      var found := CheckSignedWith(kept, p);
      if found {
        return;
      }
      forall i | 0 <= i < |kept| ensures |kept[i]| == PARTIAL_SIZE {
        assert kept[i] in sigs;
      }
      kept := kept + [p];
      if |kept| < sc.threshold {
        var ok := WritePendingGroupEventSignatures(KeyOf(e), kept);
      } else {
        var ok := WriteSignedGroupEventAndExpirePending(e.(signature := sc.full(Message(e))));
      }
    }
  }
}
