/**
  The store of contract events that both chain engines fill: an event is written
  under its contract and nonce, and a key once written is never overwritten.
 */
module ContractLog {

  datatype Log = Log(contract: string, nonce: nat, payload: string)

  type Events = map<(string, nat), Log>

  function KeyOf(log: Log): (string, nat) {
    (log.contract, log.nonce)
  }

  /** `storeWriteContractEvent` */
  function Put(events: Events, log: Log): Events {
    if KeyOf(log) in events then events else events[KeyOf(log) := log]
  }

  /** Of the logs with one key, the first. */
  function FirstWins(logs: seq<Log>): Events {
    if logs == [] then map[] else Put(FirstWins(logs[..|logs| - 1]), logs[|logs| - 1])
  }

  /** What that means: a key is there exactly when some log has it, with the earliest such log. */
  lemma {:induction false} FirstWinsMeaning(logs: seq<Log>, i: nat)
    requires i < |logs|
    ensures KeyOf(logs[i]) in FirstWins(logs)
    ensures FirstWins(logs)[KeyOf(logs[i])] == logs[i] || exists j :: 0 <= j < i && KeyOf(logs[j]) == KeyOf(logs[i])
    ensures forall k :: k in FirstWins(logs) ==> exists j :: 0 <= j < |logs| && KeyOf(logs[j]) == k && FirstWins(logs)[k] == logs[j]
    decreases |logs|
  {
    var before := logs[..|logs| - 1];
    var last := logs[|logs| - 1];
    if before != [] {
      FirstWinsMeaning(before, if i < |before| then i else 0);
    }
    forall k | k in FirstWins(logs)
      ensures exists j :: 0 <= j < |logs| && KeyOf(logs[j]) == k && FirstWins(logs)[k] == logs[j]
    {
      if k in FirstWins(before) {
        var j :| 0 <= j < |before| && KeyOf(before[j]) == k && FirstWins(before)[k] == before[j];
        assert logs[j] == before[j];
      } else {
        assert logs[|logs| - 1] == last;
      }
    }
    if i == |before| && KeyOf(last) in FirstWins(before) {
      var j :| 0 <= j < |before| && KeyOf(before[j]) == KeyOf(last);
      assert logs[j] == before[j];
    } else if i < |before| && FirstWins(before)[KeyOf(before[i])] != before[i] {
      var j :| 0 <= j < i && KeyOf(before[j]) == KeyOf(before[i]);
      assert logs[j] == before[j];
    }
  }

  /** Writing a log of the prefix again changes nothing; writing the next one extends the prefix. */
  lemma PutAt(logs: seq<Log>, high: nat, i: nat)
    requires i <= high <= |logs| && i < |logs|
    ensures Put(FirstWins(logs[..high]), logs[i]) == FirstWins(logs[..if i < high then high else i + 1])
  {
    if i < high {
      FirstWinsMeaning(logs[..high], i);
    } else {
      assert logs[..i + 1][..i] == logs[..i];
    }
  }
}
