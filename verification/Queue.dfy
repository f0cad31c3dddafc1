/**
  The queues of contract and group events in an ordered byte-keyed database. A key
  is the queue's prefix, an address, and the nonce in eight big-endian bytes; the
  database iterates over keys in lexicographic order. Addresses of one queue have
  one length.
 */
module Queue {
  import opened Bytes

  datatype Event = Event(nonce: uint64, payload: string)

  type Database = map<bytes, Event>

  // ---------- lexicographic order ----------

  predicate Less(a: bytes, b: bytes) {
    b != [] && (a == [] || a[0] < b[0] || (a[0] == b[0] && Less(a[1..], b[1..])))
  }

  lemma {:induction false} LessTotal(a: bytes, b: bytes)
    ensures Less(a, b) || a == b || Less(b, a)
    ensures !(Less(a, b) && Less(b, a)) && !Less(a, a)
  {
    if a != [] && b != [] {
      LessTotal(a[1..], b[1..]);
      assert a == [a[0]] + a[1..] && b == [b[0]] + b[1..];
    }
    if a != [] {
      LessTotal(a[1..], a[1..]);
    }
  }

  lemma {:induction false} LessTransitive(a: bytes, b: bytes, c: bytes)
    requires Less(a, b) && Less(b, c)
    ensures Less(a, c)
  {
    if a != [] && a[0] == b[0] == c[0] {
      LessTransitive(a[1..], b[1..], c[1..]);
    }
  }

  lemma {:induction false} LessPrefix(p: bytes, a: bytes, b: bytes)
    ensures Less(p + a, p + b) <==> Less(a, b)
  {
    if p == [] {
      assert p + a == a && p + b == b;
    } else {
      LessPrefix(p[1..], a, b);
      assert (p + a)[1..] == p[1..] + a && (p + b)[1..] == p[1..] + b;
    }
  }

  /** Among byte strings of one length the order is that of the numbers they write. */
  lemma {:induction false} LessIsNumeric(a: bytes, b: bytes)
    requires |a| == |b|
    ensures Less(a, b) <==> FromBE(a) < FromBE(b)
  {
    hide FromBE, Pow256;
    if a != [] {
      LessIsNumeric(a[1..], b[1..]);
      LeadingByte(a);
      LeadingByte(b);
      FromBEBound(a[1..]);
      FromBEBound(b[1..]);
      LeadingDigit(a[0], FromBE(a[1..]), b[0], FromBE(b[1..]), Pow256(|a| - 1));
    }
  }

  lemma LeadingDigit(x: nat, r: nat, y: nat, s: nat, p: nat)
    requires r < p && s < p
    ensures x * p + r < y * p + s <==> x < y || (x == y && r < s)
  {
    if x < y {
      assert (x + 1) * p <= y * p;
    } else if y < x {
      assert (y + 1) * p <= x * p;
    }
  }

  lemma LeadingByte(a: bytes)
    requires a != []
    ensures FromBE(a) == a[0] * Pow256(|a| - 1) + FromBE(a[1..])
  {
    FromBEConcat([a[0]], a[1..]);
    assert a == [a[0]] + a[1..];
    assert FromBE([a[0]]) == a[0];
  }

  // ---------- keys ----------

  /** `uint64Bytes` at the end of a prefix */
  function KeyOf(prefix: bytes, nonce: uint64): (k: bytes)
    ensures |k| == |prefix| + 8 && prefix <= k
  {
    prefix + ToBE(nonce, 8)
  }

  /** Keys of one address are ordered as their nonces, and each eight-byte ending is that of one nonce. */
  lemma KeyOrder(prefix: bytes, m: uint64, n: uint64)
    ensures Less(KeyOf(prefix, m), KeyOf(prefix, n)) <==> m < n
    ensures KeyOf(prefix, m) == KeyOf(prefix, n) <==> m == n
  {
    hide Less, FromBE, ToBE, Pow256;
    Pow256Words();
    LessPrefix(prefix, ToBE(m, 8), ToBE(n, 8));
    LessIsNumeric(ToBE(m, 8), ToBE(n, 8));
    FromToBE(m, 8);
    FromToBE(n, 8);
    assert KeyOf(prefix, m)[|prefix|..] == ToBE(m, 8) && KeyOf(prefix, n)[|prefix|..] == ToBE(n, 8);
  }

  /** Every key below the queue's prefix has an address of the queue's length and its event's nonce. */
  ghost predicate Shaped(db: Database, queue: bytes, width: nat) {
    forall k :: k in db && queue <= k ==> |k| == |queue| + width + 8 && k == KeyOf(k[..|queue| + width], db[k].nonce)
  }

  /** Of the keys below an address, those of its events. */
  lemma AddressKeys(db: Database, queue: bytes, address: bytes, k: bytes)
    requires Shaped(db, queue, |address|) && k in db && queue + address <= k
    ensures k == KeyOf(queue + address, db[k].nonce)
  {
    assert queue <= k;
    assert k[..|queue| + |address|] == queue + address;
  }

  // ---------- iteration ----------

  predicate IsFirst(s: set<bytes>, k: bytes) {
    k in s && forall x :: x in s ==> !Less(x, k)
  }

  lemma {:induction false} HasFirst(s: set<bytes>)
    requires s != {}
    ensures exists k :: IsFirst(s, k)
    decreases |s|
  {
    var x :| x in s;
    LessTotal(x, x);
    if s == {x} {
      assert IsFirst(s, x);
    } else {
      HasFirst(s - {x});
      var k :| IsFirst(s - {x}, k);
      var first := if Less(x, k) then x else k;
      forall y | y in s ensures !Less(y, first) {
        if y != x && Less(y, x) && Less(x, k) {
          LessTransitive(y, x, k);
        }
      }
      assert IsFirst(s, first);
    }
  }

  lemma FirstIsUnique(s: set<bytes>, a: bytes, b: bytes)
    requires IsFirst(s, a) && IsFirst(s, b)
    ensures a == b
  {
    LessTotal(a, b);
  }

  /** Where an iterator over the keys of a set comes to stand. */
  function First(s: set<bytes>): (r: Option<bytes>)
    ensures if r.Some? then IsFirst(s, r.value) else s == {}
  {
    if s == {} then None else
      HasFirst(s);
      assert forall a, b :: IsFirst(s, a) && IsFirst(s, b) ==> a == b by {
        forall a, b | IsFirst(s, a) && IsFirst(s, b) ensures a == b {
          FirstIsUnique(s, a, b);
        }
      }
      var k :| IsFirst(s, k);
      Some(k)
  }

  function KeysFrom(db: Database, prefix: bytes, from: bytes): set<bytes> {
    set k | k in db && prefix <= k && !Less(k, from)
  }

  function KeysAfter(db: Database, prefix: bytes, at: bytes): set<bytes> {
    set k | k in db && prefix <= k && Less(at, k)
  }

  function SeekFrom(db: Database, prefix: bytes, from: bytes): Option<bytes> {
    First(KeysFrom(db, prefix, from))
  }

  function NextAfter(db: Database, prefix: bytes, at: bytes): Option<bytes> {
    First(KeysAfter(db, prefix, at))
  }

  /** The iterator stands on the least nonce that is at least `low`, or there is none. */
  ghost predicate StandsOn(db: Database, prefix: bytes, low: nat, r: Option<bytes>) {
    if r.Some? then
      && r.value in db && r.value == KeyOf(prefix, db[r.value].nonce) && low <= db[r.value].nonce
      && forall n: uint64 :: low <= n < db[r.value].nonce ==> KeyOf(prefix, n) !in db
    else
      forall n: uint64 :: low <= n ==> KeyOf(prefix, n) !in db
  }

  lemma SeekNumeric(db: Database, queue: bytes, address: bytes, offset: uint64)
    requires Shaped(db, queue, |address|)
    ensures StandsOn(db, queue + address, offset, SeekFrom(db, queue + address, KeyOf(queue + address, offset)))
  {
    hide Less, KeyOf, First;
    var prefix := queue + address;
    var r := SeekFrom(db, prefix, KeyOf(prefix, offset));
    if r.Some? {
      AddressKeys(db, queue, address, r.value);
      KeyOrder(prefix, db[r.value].nonce, offset);
    }
    forall n: uint64 | offset <= n && KeyOf(prefix, n) in db
      ensures r.Some? && db[r.value].nonce <= n
    {
      KeyOrder(prefix, n, offset);
      assert KeyOf(prefix, n) in KeysFrom(db, prefix, KeyOf(prefix, offset));
      KeyOrder(prefix, n, db[r.value].nonce);
    }
  }

  lemma NextNumeric(db: Database, queue: bytes, address: bytes, at: uint64)
    requires Shaped(db, queue, |address|)
    ensures StandsOn(db, queue + address, at + 1, NextAfter(db, queue + address, KeyOf(queue + address, at)))
  {
    hide Less, KeyOf, First;
    var prefix := queue + address;
    var r := NextAfter(db, prefix, KeyOf(prefix, at));
    if r.Some? {
      AddressKeys(db, queue, address, r.value);
      KeyOrder(prefix, at, db[r.value].nonce);
    }
    forall n: uint64 | at < n && KeyOf(prefix, n) in db
      ensures r.Some? && db[r.value].nonce <= n
    {
      KeyOrder(prefix, at, n);
      assert KeyOf(prefix, n) in KeysAfter(db, prefix, KeyOf(prefix, at));
      KeyOrder(prefix, n, db[r.value].nonce);
    }
  }

  // ---------- the queue as a numeric map ----------

  /** What is queued for an address, by nonce. */
  ghost function Queued(db: Database, prefix: bytes): (q: map<uint64, Event>)
    ensures forall n: uint64 :: n in q ==> KeyOf(prefix, n) in db && q[n] == db[KeyOf(prefix, n)]
  {
    var nonces := set k | k in db && prefix <= k :: db[k].nonce;
    map n | n in nonces && KeyOf(prefix, n) in db :: db[KeyOf(prefix, n)]
  }

  lemma QueuedMeaning(db: Database, queue: bytes, address: bytes, n: uint64)
    requires Shaped(db, queue, |address|)
    ensures n in Queued(db, queue + address) <==> KeyOf(queue + address, n) in db
    ensures n in Queued(db, queue + address) ==> Queued(db, queue + address)[n].nonce == n
  {
    var k := KeyOf(queue + address, n);
    if k in db {
      AddressKeys(db, queue, address, k);
      KeyOrder(queue + address, n, db[k].nonce);
    }
  }

  /** Queueing an event changes its own address only, and only where its nonce is free. */
  lemma WriteIsNumeric(db: Database, queue: bytes, address: bytes, evt: Event, other: bytes)
    requires Shaped(db, queue, |address|) && |other| == |address| && KeyOf(queue + address, evt.nonce) !in db
    ensures var db' := db[KeyOf(queue + address, evt.nonce) := evt];
      && Shaped(db', queue, |address|)
      && Queued(db', queue + other) == if other == address then Queued(db, queue + other)[evt.nonce := evt] else Queued(db, queue + other)
  {
    hide KeyOf, Queued;
    var key := KeyOf(queue + address, evt.nonce);
    var db' := db[key := evt];
    assert key[..|queue| + |address|] == queue + address;
    forall n: uint64
      ensures n in Queued(db', queue + other) <==> n in Queued(db, queue + other) || (other == address && n == evt.nonce)
      ensures other != address ==> KeyOf(queue + other, n) != key
      ensures n != evt.nonce ==> KeyOf(queue + other, n) != key
    {
      QueuedMeaning(db, queue, other, n);
      QueuedMeaning(db', queue, other, n);
      SameKey(queue, other, n, address, evt.nonce);
    }
  }

  /** Queueing a list, each event unless its nonce is taken */
  function QueueAll(q: map<uint64, Event>, events: seq<Event>): map<uint64, Event> {
    if events == [] then q
    else
      var before := QueueAll(q, events[..|events| - 1]);
      var evt := events[|events| - 1];
      if evt.nonce in before then before else before[evt.nonce := evt]
  }

  /** Queueing a list does that to its own address, and nothing to others. */
  lemma {:induction false} WrittenIsNumeric(db: Database, queue: bytes, address: bytes, events: seq<Event>, other: bytes)
    requires Shaped(db, queue, |address|) && |other| == |address|
    ensures var db' := Written(db, queue + address, events);
      && Shaped(db', queue, |address|)
      && Queued(db', queue + other) ==
           if other == address then QueueAll(Queued(db, queue + address), events) else Queued(db, queue + other)
  {
    hide KeyOf, Queued, Shaped;
    if events != [] {
      var front, evt := events[..|events| - 1], events[|events| - 1];
      WrittenIsNumeric(db, queue, address, front, other);
      var before := Written(db, queue + address, front);
      QueuedMeaning(before, queue, address, evt.nonce);
      if KeyOf(queue + address, evt.nonce) !in before {
        WriteIsNumeric(before, queue, address, evt, other);
      }
    }
  }

  /** Of the events listed with a nonce that was free, the first is queued. */
  lemma {:induction false} QueueAllMeaning(q: map<uint64, Event>, events: seq<Event>, n: uint64)
    ensures n in QueueAll(q, events) <==> n in q || Mentions(events, n)
    ensures n in q ==> QueueAll(q, events)[n] == q[n]
    ensures n !in q && Mentions(events, n) ==>
      exists i :: 0 <= i < |events| && events[i].nonce == n && QueueAll(q, events)[n] == events[i] && forall j :: 0 <= j < i ==> events[j].nonce != n
  {
    if events != [] {
      var front, evt := events[..|events| - 1], events[|events| - 1];
      QueueAllMeaning(q, front, n);
      MentionsMore(front, evt, n);
      assert events == front + [evt];
      if Mentions(front, n) {
        if n !in q {
          var i :| 0 <= i < |front| && front[i].nonce == n && QueueAll(q, front)[n] == front[i] && forall j :: 0 <= j < i ==> front[j].nonce != n;
          assert events[i].nonce == n && forall j :: 0 <= j < i ==> events[j] == front[j];
        }
      } else if evt.nonce == n {
        assert forall j :: 0 <= j < |front| ==> front[j].nonce != n && events[j] == front[j];
        assert events[|front|].nonce == n;
      }
    }
  }

  lemma SameKey(queue: bytes, a: bytes, m: uint64, b: bytes, n: uint64)
    requires |a| == |b|
    ensures KeyOf(queue + a, m) == KeyOf(queue + b, n) <==> a == b && m == n
  {
    hide KeyOf;
    if KeyOf(queue + a, m) == KeyOf(queue + b, n) {
      assert queue + a == KeyOf(queue + a, m)[..|queue + a|] == queue + b;
      assert a == (queue + a)[|queue|..] == (queue + b)[|queue|..] == b;
      KeyOrder(queue + a, m, n);
    }
  }

  ghost predicate Increasing(r: seq<Event>) {
    forall i, j :: 0 <= i < j < |r| ==> r[i].nonce < r[j].nonce
  }

  ghost predicate Mentions(r: seq<Event>, n: uint64) {
    exists i :: 0 <= i < |r| && r[i].nonce == n
  }

  /** The first events from a nonce on, in increasing order of nonce; a limit below one counts as one. */
  ghost predicate IsListing(q: map<uint64, Event>, offset: uint64, limit: int, r: seq<Event>) {
    var most := if limit < 1 then 1 else limit;
    && |r| <= most && Increasing(r)
    && (forall i :: 0 <= i < |r| ==> offset <= r[i].nonce && r[i].nonce in q && q[r[i].nonce] == r[i])
    && (forall n :: n in q && offset <= n ==> Mentions(r, n) || (|r| == most && r[most - 1].nonce < n))
  }

  /** That leaves no choice. */
  lemma {:induction false} ListingIsUnique(q: map<uint64, Event>, offset: uint64, limit: int, r: seq<Event>, s: seq<Event>, k: nat)
    requires IsListing(q, offset, limit, r) && IsListing(q, offset, limit, s) && k <= |r|
    ensures k <= |s| && r[..k] == s[..k]
  {
    hide IsListing;
    if k > 0 {
      ListingIsUnique(q, offset, limit, r, s, k - 1);
      ListingAt(q, offset, limit, r, s, k - 1);
      ListingAt(q, offset, limit, s, r, k - 1);
      SameNonceSameEvent(q, offset, limit, r, s, k - 1);
      assert r[..k] == r[..k - 1] + [r[k - 1]] && s[..k] == s[..k - 1] + [s[k - 1]];
    }
  }

  lemma SameNonceSameEvent(q: map<uint64, Event>, offset: uint64, limit: int, r: seq<Event>, s: seq<Event>, k: nat)
    requires IsListing(q, offset, limit, r) && IsListing(q, offset, limit, s) && k < |r| && k < |s| && r[k].nonce == s[k].nonce
    ensures r[k] == s[k]
  {
  }

  /** If two listings agree on the first `k` events, the event after them in one is no later than in the other. */
  lemma ListingAt(q: map<uint64, Event>, offset: uint64, limit: int, r: seq<Event>, s: seq<Event>, k: nat)
    requires IsListing(q, offset, limit, r) && IsListing(q, offset, limit, s)
    requires k < |r| && k <= |s| && r[..k] == s[..k]
    ensures k < |s| && s[k].nonce <= r[k].nonce
  {
    hide Mentions;
    var n := r[k].nonce;
    assert n in q && offset <= n;
    assert forall i :: 0 <= i < k ==> s[i] == s[..k][i] && r[i] == r[..k][i];
    if Mentions(s, n) {
      var i := MentionedAt(s, n);
    }
  }

  ghost function MentionedAt(r: seq<Event>, n: uint64): (i: nat)
    requires Mentions(r, n)
    ensures i < |r| && r[i].nonce == n
  {
    var i :| 0 <= i < |r| && r[i].nonce == n;
    i
  }

  class Store {
    const queue: bytes
    const width: nat
    var db: Database

    ghost predicate Valid()
      reads this
    {
      Shaped(db, queue, width)
    }

    constructor (queue: bytes, width: nat)
      ensures this.queue == queue && this.width == width && db == map[] && Valid()
    {
      this.queue, this.width, db := queue, width, map[];
    }

    /** Written once: an event already queued under the nonce stays. */
    method WriteEvent(address: bytes, evt: Event)
      requires Valid() && |address| == width
      modifies this
      ensures Valid()
      ensures db == if KeyOf(queue + address, evt.nonce) in old(db) then old(db) else old(db)[KeyOf(queue + address, evt.nonce) := evt]
    {
      hide KeyOf;
      var key := KeyOf(queue + address, evt.nonce);
      if key in db {
        return;
      }
      db := db[key := evt];
      assert key[..|queue| + width] == queue + address;
    }

    /** One transaction for a list of events, each written once. */
    method WriteGroupEvents(address: bytes, events: seq<Event>)
      requires Valid() && |address| == width
      modifies this
      ensures Valid() && db == Written(old(db), queue + address, events)
      ensures Queued(db, queue + address) == QueueAll(Queued(old(db), queue + address), events)
      ensures forall other: bytes :: |other| == width && other != address ==> Queued(db, queue + other) == Queued(old(db), queue + other)
    {
      hide KeyOf, Queued, QueueAll;
      WrittenIsNumeric(db, queue, address, events, address);
      forall other: bytes | |other| == width && other != address
        ensures Queued(Written(db, queue + address, events), queue + other) == Queued(db, queue + other)
      {
        WrittenIsNumeric(db, queue, address, events, other);
      }
      for i := 0 to |events|
        invariant Valid() && db == Written(old(db), queue + address, events[..i])
      {
        assert events[..i + 1][..i] == events[..i];
        WriteEvent(address, events[i]);
      }
      assert events[..|events|] == events;
    }

    /** Listing by iteration over ordered keys is listing by nonce. */
    method ListEvents(address: bytes, offset: uint64, limit: int) returns (events: seq<Event>)
      requires Valid() && |address| == width
      ensures IsListing(Queued(db, queue + address), offset, limit, events)
    {
      hide KeyOf, Less, First, Shaped, SeekFrom, NextAfter, IsListing, Collected, Queued;
      var prefix := queue + address;
      ghost var q := Queued(db, prefix);
      forall n: uint64 ensures n in q <==> KeyOf(prefix, n) in db {
        QueuedMeaning(db, queue, address, n);
      }
      events := [];
      NothingCollected(q, offset);
      var cursor := SeekFrom(db, prefix, KeyOf(prefix, offset));
      SeekNumeric(db, queue, address, offset);
      ghost var low: nat := offset;
      while cursor.Some?
        invariant StandsOn(db, prefix, low, cursor) && offset <= low
        invariant Collected(q, offset, low, events)
        invariant |events| == 0 || |events| < limit
        decreases U64 - low
      {
        var evt := db[cursor.value];
        CollectOne(q, offset, low, events, evt);
        events := events + [evt];
        low := evt.nonce + 1;
        if |events| >= limit {
          ListedFirst(q, offset, low, limit, events);
          return;
        }
        NextNumeric(db, queue, address, evt.nonce);
        cursor := NextAfter(db, prefix, cursor.value);
      }
      ListedAll(q, offset, low, limit, events);
    }
  }

  /** The database after a list of events was queued. */
  function Written(db: Database, prefix: bytes, events: seq<Event>): Database {
    if events == [] then db else
      var before := Written(db, prefix, events[..|events| - 1]);
      var evt := events[|events| - 1];
      if KeyOf(prefix, evt.nonce) in before then before else before[KeyOf(prefix, evt.nonce) := evt]
  }

  /** The events of all nonces from `offset` up to but not including `low`, in order. */
  ghost predicate Collected(q: map<uint64, Event>, offset: uint64, low: nat, r: seq<Event>) {
    && Increasing(r)
    && (forall i :: 0 <= i < |r| ==> offset <= r[i].nonce < low && r[i].nonce in q && q[r[i].nonce] == r[i])
    && (forall n :: n in q && offset <= n < low ==> Mentions(r, n))
  }

  lemma NothingCollected(q: map<uint64, Event>, offset: uint64)
    ensures Collected(q, offset, offset, [])
  {
  }

  lemma ListedFirst(q: map<uint64, Event>, offset: uint64, low: nat, limit: int, r: seq<Event>)
    requires Collected(q, offset, low, r) && |r| == (if limit < 1 then 1 else limit) && low == r[|r| - 1].nonce + 1
    ensures IsListing(q, offset, limit, r)
  {
  }

  lemma ListedAll(q: map<uint64, Event>, offset: uint64, low: nat, limit: int, r: seq<Event>)
    requires Collected(q, offset, low, r) && (|r| == 0 || |r| < limit) && forall n: uint64 :: low <= n ==> n !in q
    ensures IsListing(q, offset, limit, r)
  {
  }

  lemma CollectOne(q: map<uint64, Event>, offset: uint64, low: nat, r: seq<Event>, evt: Event)
    requires Collected(q, offset, low, r) && offset <= low <= evt.nonce
    requires evt.nonce in q && q[evt.nonce] == evt && forall n: uint64 :: low <= n < evt.nonce ==> n !in q
    ensures Collected(q, offset, evt.nonce + 1, r + [evt])
  {
    hide Mentions;
    forall n | n in q && offset <= n < evt.nonce + 1
      ensures Mentions(r + [evt], n)
    {
      MentionsMore(r, evt, n);
    }
  }

  lemma MentionsMore(r: seq<Event>, evt: Event, n: uint64)
    ensures Mentions(r + [evt], n) <==> Mentions(r, n) || evt.nonce == n
  {
    var r' := r + [evt];
    if Mentions(r, n) {
      var i := MentionedAt(r, n);
      assert r'[i].nonce == n;
    } else if evt.nonce == n {
      assert r'[|r|].nonce == n;
    }
  }
}
