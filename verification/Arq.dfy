/**
 The RLC retransmission manager. `Arq` is its state as a value, and the functions on it specify the class. Times are
 milliseconds.
*/
module Arq {
  import opened Options

  const U16 := 0x1_0000
  const U32 := 0x1_0000_0000

  datatype Entry = Entry(size: nat, enqueued: int, count: nat, needs: bool)

  datatype Arq = Arq(buffer: map<nat, Entry>, packetsAcked: nat, bytesAcked: nat, retransmitted: nat, dropped: nat)

  datatype Config = Config(timeout: nat, maxAttempts: nat)

  /** A status PDU: the flags that are looked at, the acknowledged id, and the ids of the NACKs. */
  datatype Status = Status(ack: bool, nack: bool, ackSn: nat, nacks: seq<nat>)

  function Initial(): Arq {
    Arq(map[], 0, 0, 0, 0)
  }

  function AddPacket(s: Arq, id: nat, size: nat, now: int): Arq {
    s.(buffer := s.buffer[id := Entry(size, now, 0, false)])
  }

  /** An unknown id is refused; otherwise the entry is counted and removed. */
  function Ack(s: Arq, id: nat): (Arq, bool) {
    if id !in s.buffer then (s, false)
    else
      (s.(buffer := s.buffer - {id},
          packetsAcked := (s.packetsAcked + 1) % U32,
          bytesAcked := (s.bytesAcked + s.buffer[id].size) % U32),
       true)
  }

  function Nack(s: Arq, id: nat): Arq {
    if id !in s.buffer then s
    else
      var e := s.buffer[id];
      s.(buffer := s.buffer[id := e.(needs := true, count := (e.count + 1) % U16)])
  }

  function Nacks(s: Arq, ids: seq<nat>): Arq {
    if ids == [] then s else Nack(Nacks(s, ids[..|ids| - 1]), ids[|ids| - 1])
  }

  function ProcessStatus(s: Arq, p: Status): (Arq, bool) {
    if p.ack then Ack(s, p.ackSn)
    else if p.nack then (Nacks(s, p.nacks), true)
    else (s, true)
  }

  predicate Overdue(c: Config, e: Entry, now: int) {
    now - e.enqueued > c.timeout
  }

  /** One turn of the loop of `checkForRetransmissions`. */
  function CheckOne(c: Config, s: Arq, id: nat, now: int): (Arq, bool) {
    if id !in s.buffer || !Overdue(c, s.buffer[id], now) then (s, false)
    else
      var e := s.buffer[id];
      if e.count >= c.maxAttempts then
        (s.(dropped := (s.dropped + 1) % U32, buffer := s.buffer - {id}), false)
      else
        (s.(buffer := s.buffer[id := e.(needs := true, count := (e.count + 1) % U16, enqueued := now)],
            retransmitted := (s.retransmitted + 1) % U32),
         true)
  }

  function Check(c: Config, s: Arq, ids: seq<nat>, now: int): (Arq, seq<nat>) {
    if ids == [] then (s, [])
    else
      var k := |ids| - 1;
      var (s1, out) := Check(c, s, ids[..k], now);
      var (s2, returned) := CheckOne(c, s1, ids[k], now);
      (s2, if returned then out + [ids[k]] else out)
  }

  function MarkRetransmitted(s: Arq, id: nat): Arq {
    if id !in s.buffer then s else s.(buffer := s.buffer[id := s.buffer[id].(needs := false)])
  }

  /** The keys of the buffer, in the order in which `std::map` is traversed. */
  predicate Enumerates(ids: seq<nat>, buffer: map<nat, Entry>) {
    && (forall i, j :: 0 <= i < j < |ids| ==> ids[i] < ids[j])
    && (forall i :: 0 <= i < |ids| ==> ids[i] in buffer)
    && forall id :: id in buffer ==> id in ids
  }

  // ---------------------------------------------------------------------------------------------
  // The class
  // ---------------------------------------------------------------------------------------------

  lemma {:induction false} LeastKey(keys: set<nat>) returns (least: nat)
    requires keys != {}
    ensures least in keys && forall k :: k in keys ==> least <= k
    decreases |keys|
  {
    var k :| k in keys;
    if keys == {k} {
      return k;
    }
    var rest := keys - {k};
    assert keys == rest + {k};
    least := LeastKey(rest);
    if k < least {
      least := k;
    }
  }

  class RetransmissionManager {
    const config: Config
    var buffer: map<nat, Entry>
    var packetsAcked: nat
    var bytesAcked: nat
    var retransmitted: nat
    var dropped: nat

    ghost function State(): Arq
      reads this
    {
      Arq(buffer, packetsAcked, bytesAcked, retransmitted, dropped)
    }

    constructor (c: Config)
      ensures State() == Initial() && config == c
    {
      config := c;
      buffer := map[];
      packetsAcked, bytesAcked, retransmitted, dropped := 0, 0, 0, 0;
    }

    method AddOne(id: nat, size: nat, now: int)
      modifies this`buffer
      ensures State() == AddPacket(old(State()), id, size, now)
    {
      buffer := buffer[id := Entry(size, now, 0, false)];
    }

    method ProcessStatusPdu(p: Status) returns (known: bool)
      modifies this
      ensures (State(), known) == ProcessStatus(old(State()), p)
    {
      if p.ack {
        if p.ackSn !in buffer {
          return false;
        }
        packetsAcked := (packetsAcked + 1) % U32;
        bytesAcked := (bytesAcked + buffer[p.ackSn].size) % U32;
        buffer := buffer - {p.ackSn};
        return true;
      }
      if p.nack {
        for i := 0 to |p.nacks|
          invariant State() == Nacks(old(State()), p.nacks[..i])
        {
          assert p.nacks[..i + 1][..i] == p.nacks[..i];
          if p.nacks[i] in buffer {
            var e := buffer[p.nacks[i]];
            buffer := buffer[p.nacks[i] := e.(needs := true, count := (e.count + 1) % U16)];
          }
        }
        assert p.nacks[..|p.nacks|] == p.nacks;
      }
      return true;
    }

    /** The traversal order of the map. */
    method SortedKeys() returns (ids: seq<nat>)
      ensures Enumerates(ids, buffer)
    {
      ids := [];
      var todo := buffer.Keys;
      while todo != {}
        invariant todo <= buffer.Keys
        invariant forall i, j :: 0 <= i < j < |ids| ==> ids[i] < ids[j]
        invariant forall i :: 0 <= i < |ids| ==> ids[i] in buffer
        invariant forall i, k :: 0 <= i < |ids| && k in todo ==> ids[i] < k
        invariant forall id :: id in buffer ==> id in ids || id in todo
        decreases todo
      {
        ghost var least := LeastKey(todo);
        var id :| id in todo && forall k :: k in todo ==> id <= k;
        ids := ids + [id];
        todo := todo - {id};
      }
    }

    method CheckForRetransmissions(now: int) returns (out: seq<nat>, ghost ids: seq<nat>)
      modifies this
      ensures Enumerates(ids, old(buffer))
      ensures (State(), out) == Check(config, old(State()), ids, now)
    {
      var keys := SortedKeys();
      ids := keys;
      out := [];
      for i := 0 to |keys|
        invariant (State(), out) == Check(config, old(State()), keys[..i], now)
      {
        assert keys[..i + 1][..i] == keys[..i];
        var id := keys[i];
        if id in buffer && now - buffer[id].enqueued > config.timeout {
          var e := buffer[id];
          if e.count >= config.maxAttempts {
            dropped := (dropped + 1) % U32;
            buffer := buffer - {id};
          } else {
            buffer := buffer[id := e.(needs := true, count := (e.count + 1) % U16, enqueued := now)];
            retransmitted := (retransmitted + 1) % U32;
            out := out + [id];
          }
        }
      }
      assert keys[..|keys|] == keys;
    }

    method Mark(id: nat)
      modifies this`buffer
      ensures State() == MarkRetransmitted(old(State()), id)
    {
      if id in buffer {
        buffer := buffer[id := buffer[id].(needs := false)];
      }
    }
  }
}
