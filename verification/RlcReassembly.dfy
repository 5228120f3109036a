/**
 The receiver's reassembly of segments. A context per masked packet id collects segments until none is missing;
 `Process` and `Cleanup` specify the manager, `Receive` is what the receiver module does with a PDU from the wire.
*/
module RlcReassembly {
  import opened Options
  import opened Bytes
  import opened RlcSegmentation

  const MAX_CONTEXTS := 100
  const SEQ_NUM_MASK := 4096
  const STATUS_TYPE := 1
  const MIN_SIZE := 16

  datatype Context = Context(
    originalSize: nat, total: nat, received: nat, data: seq<Byte>, flags: seq<bool>, updated: int)

  type Contexts = map<nat, Context>

  function MaskedId(h: Header): nat {
    h.packetId % SEQ_NUM_MASK
  }

  function NewContext(h: Header, now: int): Context {
    Context(h.originalSize, h.total, 0, seq(h.originalSize, i => 0), seq(h.total, i => false), now)
  }

  /** A segment of a packet without a context finds too many contexts. */
  predicate Refused(cs: Contexts, id: nat) {
    id !in cs && |cs| >= MAX_CONTEXTS
  }

  function Open(cs: Contexts, h: Header, now: int): Context {
    if MaskedId(h) in cs then cs[MaskedId(h)] else NewContext(h, now)
  }

  /** The segment's number exists, is new, and its data lies inside. */
  predicate Takes(c: Context, s: Segment) {
    && s.header.number < |c.flags| && !c.flags[s.header.number]
    && s.header.offset + |s.data| <= |c.data|
  }

  function Put(c: Context, s: Segment, now: int): Context
    requires Takes(c, s)
  {
    c.(data := Write(c.data, s.header.offset, s.data), flags := c.flags[s.header.number := true],
       received := (c.received + 1) % U16, updated := now)
  }

  /** One segment: the contexts afterwards, and the packet if it is complete. A context that refuses stays open. */
  function Process(cs: Contexts, s: Segment, now: int): (Contexts, Option<seq<Byte>>) {
    var id := MaskedId(s.header);
    if Refused(cs, id) then (cs, None)
    else
      var c := Open(cs, s.header, now);
      if !Takes(c, s) then (cs[id := c], None)
      else
        var c' := Put(c, s, now);
        if c'.received == c'.total then (cs - {id}, Some(c'.data)) else (cs[id := c'], None)
  }

  predicate Expired(timeout: nat, c: Context, now: int) {
    now - c.updated > timeout
  }

  function Cleanup(timeout: nat, cs: Contexts, now: int): Contexts {
    map id | id in cs && !Expired(timeout, cs[id], now) :: cs[id]
  }

  /** Between the two sizes the source reads a header that is not there. */
  predicate Readable(bytes: seq<Byte>) {
    |bytes| < MIN_SIZE || |bytes| >= HEADER_SIZE
  }

  predicate IsSegment(bytes: seq<Byte>) {
    |bytes| >= HEADER_SIZE && bytes[0] != STATUS_TYPE
  }

  /** A PDU from the wire: a packet in one segment bypasses the manager, and nothing empty is handed on. */
  function Receive(cs: Contexts, bytes: seq<Byte>, now: int): (Contexts, Option<seq<Byte>>)
    requires Readable(bytes)
  {
    if !IsSegment(bytes) then (cs, None)
    else
      var s := Deserialize(bytes);
      var (cs', out) :=
        if s.header.total == 1 && s.header.number == 0 then (cs, Some(s.data)) else Process(cs, s, now);
      (cs', if out == Some([]) then None else out)
  }

  // ---------------------------------------------------------------------------------------------
  // The class
  // ---------------------------------------------------------------------------------------------

  class ReassemblyManager {
    const timeout: nat
    var contexts: Contexts

    constructor (timeoutMs: nat)
      ensures timeout == timeoutMs && contexts == map[]
    {
      timeout := timeoutMs;
      contexts := map[];
    }

    method ProcessSegment(s: Segment, now: int) returns (done: bool, packet: seq<Byte>)
      modifies this
      ensures (contexts, if done then Some(packet) else None) == Process(old(contexts), s, now)
    {
      var id := s.header.packetId % SEQ_NUM_MASK;
      if |contexts| >= MAX_CONTEXTS && id !in contexts {
        return false, [];
      }
      if id !in contexts {
        contexts := contexts[id := NewContext(s.header, now)];
      }
      ghost var start := contexts;
      assert start == old(contexts)[id := Open(old(contexts), s.header, now)];
      var c := contexts[id];
      var n, offset := s.header.number, s.header.offset;
      if n >= |c.flags| {
        return false, [];
      }
      if c.flags[n] {
        return false, [];
      }
      if offset + |s.data| > |c.data| {
        return false, [];
      }
      var data := c.data[..offset] + s.data + c.data[offset + |s.data|..];
      c := c.(data := data, flags := c.flags[n := true], received := (c.received + 1) % U16, updated := now);
      contexts := contexts[id := c];
      if c.received == c.total {
        packet := c.data;
        contexts := contexts - {id};
        assert start[id := c] - {id} == old(contexts) - {id};
        return true, packet;
      }
      assert start[id := c] == old(contexts)[id := c];
      return false, [];
    }

    method CleanupExpired(now: int)
      modifies this
      ensures contexts == Cleanup(timeout, old(contexts), now)
    {
      var todo := contexts.Keys;
      while todo != {}
        invariant todo <= contexts.Keys
        invariant forall id :: id in contexts <==>
                    id in old(contexts) && (id in todo || !Expired(timeout, old(contexts)[id], now))
        invariant forall id :: id in contexts ==> contexts[id] == old(contexts)[id]
        decreases todo
      {
        var id :| id in todo;
        todo := todo - {id};
        if now - contexts[id].updated > timeout {
          contexts := contexts - {id};
        }
      }
    }
  }
}
