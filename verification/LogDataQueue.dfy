/** The bounded queue between the receive thread and a transfer: LOG_DATA packets of any log. */
module LogDataQueue {
  import opened MavlinkLog
  import opened Transfer

  datatype Packet = Packet(id: nat, chunk: Chunk)

  const DEFAULT_CAP := 2048

  /** The packets of one log, in order. */
  function Of(s: seq<Packet>, id: nat): seq<Packet> {
    if s == [] then []
    else Of(s[..|s| - 1], id) + if s[|s| - 1].id == id then [s[|s| - 1]] else []
  }

  /** The packets of all other logs, in order. */
  function Others(s: seq<Packet>, id: nat): seq<Packet> {
    if s == [] then []
    else Others(s[..|s| - 1], id) + if s[|s| - 1].id == id then [] else [s[|s| - 1]]
  }

  lemma {:induction false} OfSnoc(s: seq<Packet>, p: Packet, id: nat)
    ensures Of(s + [p], id) == Of(s, id) + if p.id == id then [p] else []
    ensures Others(s + [p], id) == Others(s, id) + if p.id == id then [] else [p]
  {
    assert (s + [p])[..|s|] == s;
  }

  lemma {:induction false} Partitioned(s: seq<Packet>, id: nat)
    ensures multiset(Of(s, id)) + multiset(Others(s, id)) == multiset(s)
  {
    if s != [] {
      var front, last := s[..|s| - 1], s[|s| - 1];
      Partitioned(front, id);
      assert s == front + [last];
      PartsSnoc(Of(front, id), Others(front, id), front, last);
    }
  }

  lemma {:induction false} PartsSnoc(a: seq<Packet>, b: seq<Packet>, all: seq<Packet>, p: Packet)
    requires multiset(a) + multiset(b) == multiset(all)
    ensures multiset(a + [p]) + multiset(b) == multiset(all + [p])
    ensures multiset(a) + multiset(b + [p]) == multiset(all + [p])
    ensures a + [] == a && b + [] == b
  {
  }

  /** The drain loop: takes this log's packets out and closes the gaps. */
  method TakeOut(before: seq<Packet>, id: nat) returns (out: seq<Packet>, queue: seq<Packet>)
    ensures out == Of(before, id) && queue == Others(before, id)
  {
    ghost var k := 0;
    out, queue := [], before;
    var i := 0;
    while i < |queue|
      invariant 0 <= k <= |before| && 0 <= i <= |queue|
      invariant out == Of(before[..k], id) && queue[..i] == Others(before[..k], id) && queue[i..] == before[k..]
      decreases |queue| - i
    {
      assert before[..k + 1] == before[..k] + [before[k]];
      assert queue[i] == queue[i..][0] == before[k];
      OfSnoc(before[..k], before[k], id);
      if queue[i].id != id {
        assert queue[..i + 1] == queue[..i] + [queue[i]] && queue[i + 1..] == queue[i..][1..];
        i := i + 1;
      } else {
        assert queue[i + 1..] == queue[i..][1..] == before[k + 1..];
        ghost var head := queue[..i];
        out := out + [queue[i]];
        queue := queue[..i] + queue[i + 1..];
        assert queue[..i] == head && queue[i..] == before[k + 1..];
      }
      k := k + 1;
    }
    assert before[..k] == before && queue[..i] == queue;
  }

  class LogDataQueue {
    const cap: nat
    var chunks: seq<Packet>
    var zeroLength: nat
    ghost var arrived: multiset<Packet>
    ghost var delivered: multiset<Packet>
    ghost var dropped: multiset<Packet>

    /** Every packet that arrived is queued, delivered once, or dropped; nothing else is ever delivered. */
    ghost predicate Valid()
      reads this
    {
      |chunks| <= cap && arrived == multiset(chunks) + delivered + dropped
    }

    constructor (maxQueued: int)
      ensures Valid() && cap == (if maxQueued > 0 then maxQueued else DEFAULT_CAP)
      ensures chunks == [] && zeroLength == 0 && arrived == multiset{}
    {
      cap := if maxQueued > 0 then maxQueued else DEFAULT_CAP;
      chunks, zeroLength := [], 0;
      arrived, delivered, dropped := multiset{}, multiset{}, multiset{};
    }

    /** A packet without payload only counts as a sign that the controller is busy. */
    method OnLogData(p: Packet)
      requires Valid()
      modifies this
      ensures Valid() && delivered == old(delivered)
      ensures p.chunk.data == [] ==> chunks == old(chunks) && dropped == old(dropped) && zeroLength == old(zeroLength) + 1
      ensures p.chunk.data != [] ==>
                var all := old(chunks) + [p];
                && zeroLength == old(zeroLength)
                && chunks == all[if |all| > cap then |all| - cap else 0..]
                && arrived == old(arrived) + multiset{p}
    {
      if p.chunk.data == [] {
        zeroLength := zeroLength + 1;
        return;
      }
      arrived := arrived + multiset{p};
      var all := chunks + [p];
      chunks := all;
      Trim(all);
    }

    /** Drops the oldest packets beyond the cap. */
    method Trim(ghost all: seq<Packet>)
      requires chunks == all && |all| <= cap + 1 && arrived == multiset(chunks) + delivered + dropped
      modifies this`chunks, this`dropped
      ensures Valid() && chunks == all[if |all| > cap then |all| - cap else 0..]
    {
      var i := 0;
      assert all[0..] == all;
      while |chunks| > cap
        invariant 0 <= i <= |all| && chunks == all[i..] && (i > 0 ==> |chunks| >= cap)
        invariant arrived == multiset(chunks) + delivered + dropped
        decreases |chunks|
      {
        assert chunks == [chunks[0]] + chunks[1..];
        dropped := dropped + multiset{chunks[0]};
        chunks := chunks[1..];
        i := i + 1;
      }
    }

    /** Hands over this log's packets in arrival order; the rest stay queued in order. */
    method Drain(id: nat) returns (out: seq<Packet>)
      requires Valid()
      modifies this`chunks, this`delivered
      ensures Valid() && delivered == old(delivered) + multiset(out)
      ensures out == Of(old(chunks), id) && chunks == Others(old(chunks), id)
    {
      Partitioned(chunks, id);
      var rest;
      out, rest := TakeOut(chunks, id);
      chunks := rest;
      delivered := delivered + multiset(out);
    }

    method Clear()
      requires Valid()
      modifies this`chunks, this`dropped
      ensures Valid() && chunks == []
    {
      dropped := dropped + multiset(chunks);
      chunks := [];
    }
  }
}
