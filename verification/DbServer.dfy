/**
 The final flush of the disk server (libecasound/audioio-db-server.cpp:630-664): after
 the I/O loop has ended, every block an output client handed over is written to its
 child, and then all rings are reset.
 */
module DbServer {
  import opened Arithmetic
  import opened DbBuffer

  /** How many of `n` queued blocks a child with `count` writes behind it gets before it reports finished. */
  function Accepted(ends: set<nat>, count: nat, n: nat): (k: nat)
    ensures k <= n
    ensures n > 0 ==> k > 0
    decreases n
  {
    if n == 0 then 0
    else if count + 1 in ends then 1
    else 1 + Accepted(ends, count + 1, n - 1)
  }

  /** A child that never reports finished gets everything; one that does gets up to that write. */
  lemma {:induction false} AcceptedMeaning(ends: set<nat>, count: nat, n: nat)
    ensures var k := Accepted(ends, count, n);
            && (forall j :: count < j < count + k ==> j !in ends)
            && (k < n ==> count + k in ends)
    decreases n
  {
    if n > 0 && count + 1 !in ends {
      AcceptedMeaning(ends, count + 1, n - 1);
    }
  }

  lemma AllAccepted(ends: set<nat>, count: nat, n: nat)
    requires forall j :: count < j <= count + n ==> j !in ends
    ensures Accepted(ends, count, n) == n
  {
    AcceptedMeaning(ends, count, n);
  }

  /**
   One entry of the server's client and buffer vectors: what has been written to the
   client's child, the write counts after which `finished` answers true, and the ring.
   An unregistered client leaves a vacant entry behind.
   */
  datatype Port =
    | Vacant
    | Port(written: seq<Block>, ends: set<nat>, ring: Ring, finished: bool, inputMode: bool)
  {
    predicate Valid() {
      Port? ==> ring.Valid()
    }

    /** Blocks the flush still has to write for this client. */
    function Left(): nat
      requires Valid()
    {
      if Vacant? || inputMode || finished then 0 else |ring.Contents()|
    }
  }

  /** How far the flush of an unfinished output client has come. */
  ghost predicate Flushing(was: Port, now: Port)
    requires was.Port? && was.Valid() && now.Port? && now.Valid()
  {
    && was.written <= now.written && was.ends == now.ends
    && was.written + was.ring.Contents() == now.written + now.ring.Contents()
    && Accepted(was.ends, |was.written|, |was.ring.Contents()|)
       == |now.written| - |was.written| +
          if now.finished then 0 else Accepted(now.ends, |now.written|, |now.ring.Contents()|)
  }

  /** Where the flush stands with one client. */
  ghost predicate Progress(was: Port, now: Port) {
    && was.Valid() && now.Valid() && was.Port? == now.Port?
    && (was.Port? ==>
        && was.inputMode == now.inputMode && |was.ring.slots| == |now.ring.slots|
        && if was.inputMode || was.finished then now == was else Flushing(was, now))
  }

  /** The loop body for one client with data: write the oldest block, note the child's end, drop the block. */
  function FlushOne(port: Port): (port': Port)
    requires port.Valid() && port.Left() > 0
    ensures port'.Valid()
  {
    var written := port.written + [port.ring.slots[port.ring.read]];
    port.(written := written, finished := port.finished || |written| in port.ends, ring := port.ring.AdvanceRead())
  }

  lemma FlushOneProgresses(was: Port, now: Port)
    requires Progress(was, now) && now.Left() > 0
    ensures Progress(was, FlushOne(now)) && FlushOne(now).Left() < now.Left()
  {
    AdvanceReadDrops(now.ring);
    var b, rest := now.ring.slots[now.ring.read], now.ring.AdvanceRead().Contents();
    assert now.written + ([b] + rest) == (now.written + [b]) + rest;
  }

  /** A client whose flush is over got the first `Accepted` blocks of its queue, in order. */
  lemma FlushingDone(was: Port, now: Port)
    requires Progress(was, now) && was.Port? && !was.inputMode && !was.finished && now.Left() == 0
    ensures now.written
         == was.written + was.ring.Contents()[..Accepted(was.ends, |was.written|, |was.ring.Contents()|)]
  {
    var queued, k := was.ring.Contents(), |now.written| - |was.written|;
    assert (was.written + queued)[..|now.written|] == was.written + queued[..k];
    assert now.written == (now.written + now.ring.Contents())[..|now.written|];
  }

  predicate AllValid(ports: seq<Port>) {
    forall i {:trigger ports[i].Valid()} :: 0 <= i < |ports| ==> ports[i].Valid()
  }

  function Lefts(ports: seq<Port>): (left: seq<nat>)
    requires AllValid(ports)
    ensures |left| == |ports| && forall i :: 0 <= i < |left| ==> left[i] == ports[i].Left()
  {
    seq(|ports|, i requires 0 <= i < |ports| => ports[i].Left())
  }

  predicate NothingLeft(ports: seq<Port>, n: nat)
    requires AllValid(ports)
  {
    forall p :: 0 <= p < n && p < |ports| ==> ports[p].Left() == 0
  }

  ghost predicate AllProgress(was: seq<Port>, now: seq<Port>) {
    |was| == |now| && forall p {:trigger Progress(was[p], now[p])} :: 0 <= p < |was| ==> Progress(was[p], now[p])
  }

  /** A client has blocks left exactly when the loop's tests let it through. */
  lemma LeftMeaning(port: Port)
    requires port.Valid()
    ensures port.Left() > 0 <==> port.Port? && !port.finished && !port.inputMode && port.ring.ReadSpace() > 0
  {
    if port.Port? { SpacesCountContents(port.ring); }
  }

  /** Each block written brings the flush nearer to its end and disturbs no other client. */
  lemma FlushOneShrinks(was: seq<Port>, ports: seq<Port>, p: nat)
    requires AllValid(ports) && AllProgress(was, ports) && p < |ports| && ports[p].Left() > 0
    ensures AllProgress(was, ports[p := FlushOne(ports[p])]) && AllValid(ports[p := FlushOne(ports[p])])
    ensures Sum(Lefts(ports[p := FlushOne(ports[p])])) < Sum(Lefts(ports))
  {
    assert Progress(was[p], ports[p]);
    FlushOneProgresses(was[p], ports[p]);
    var left := FlushOne(ports[p]).Left();
    SumUpdate(Lefts(ports), p, left);
    assert Lefts(ports[p := FlushOne(ports[p])]) == Lefts(ports)[p := left];
  }

  /** What the whole flush promises for one client. */
  ghost predicate Flushed(was: Port, now: Port) {
    && was.Valid() && now.Valid() && was.Port? == now.Port?
    && (was.Port? ==>
        && !now.finished && now.ring.write == 0 && now.ring.read == 0
        && now.ring.Contents() == [] && |now.ring.slots| == |was.ring.slots|
        && now.written == if was.inputMode || was.finished then was.written
           else was.written + was.ring.Contents()[..Accepted(was.ends, |was.written|, |was.ring.Contents()|)])
  }

  /** An output client whose child never reports finished loses nothing. */
  lemma FlushedLosesNothing(was: Port, now: Port)
    requires Flushed(was, now) && was.Port? && !was.inputMode && !was.finished
    requires forall k :: |was.written| < k <= |was.written| + |was.ring.Contents()| ==> k !in was.ends
    ensures now.written == was.written + was.ring.Contents()
  {
    AllAccepted(was.ends, |was.written|, |was.ring.Contents()|);
  }

  class Server {
    var ports: seq<Port>

    predicate Valid()
      reads this
    {
      AllValid(ports)
    }

    constructor (ports: seq<Port>)
      ensures this.ports == ports
    {
      this.ports := ports;
    }

    /** One pass over the clients; `notFinished` counts those that still had data. */
    method FlushRound(ghost was: seq<Port>) returns (notFinished: nat)
      requires Valid() && AllProgress(was, ports)
      modifies this
      ensures Valid() && AllProgress(was, ports)
      ensures Sum(Lefts(ports)) + notFinished <= old(Sum(Lefts(ports)))
      ensures notFinished == 0 ==> NothingLeft(ports, |ports|)
    {
      notFinished := 0;
      for p := 0 to |ports|
        invariant Valid() && AllProgress(was, ports) && |ports| == |was|
        invariant Sum(Lefts(ports)) + notFinished <= old(Sum(Lefts(ports)))
        invariant notFinished == 0 ==> NothingLeft(ports, p)
      {
        var port := ports[p];
        assert port.Valid();
        LeftMeaning(port);
        if port.Port? && !port.finished && !port.inputMode && port.ring.ReadSpace() > 0 {
          notFinished := notFinished + 1;
          FlushOneShrinks(was, ports, p);
          ports := ports[p := FlushOne(port)];
        }
      }
    }

    /**
     `flush`: every unfinished output client's child gets its queued blocks, once and in
     order, up to the write after which it reports finished; nothing else is written,
     and every ring ends up empty.
     */
    method Flush()
      requires Valid()
      modifies this
      ensures Valid() && |ports| == old(|ports|)
      ensures forall p :: 0 <= p < |ports| ==> Flushed(old(ports[p]), ports[p])
    {
      ghost var was := ports;
      forall p | 0 <= p < |was| ensures Progress(was[p], was[p]) {}
      var notFinished := 1;
      while notFinished != 0
        invariant Valid() && AllProgress(was, ports)
        invariant notFinished == 0 ==> NothingLeft(ports, |ports|)
        decreases notFinished != 0, Sum(Lefts(ports))
      {
        notFinished := FlushRound(was);
      }
      ResetAll(was);
    }

    method ResetAll(ghost was: seq<Port>)
      requires Valid() && AllProgress(was, ports)
      requires NothingLeft(ports, |ports|)
      modifies this
      ensures Valid() && |ports| == |was|
      ensures forall p :: 0 <= p < |ports| ==> Flushed(was[p], ports[p])
    {
      for p := 0 to |ports|
        invariant Valid() && |ports| == |was|
        invariant forall q :: p <= q < |ports| ==> Progress(was[q], ports[q]) && ports[q].Left() == 0
        invariant forall q :: 0 <= q < p ==> Flushed(was[q], ports[q])
      {
        var port := ports[p];
        if port.Port? {
          if !was[p].inputMode && !was[p].finished { FlushingDone(was[p], port); }
          ports := ports[p := port.(finished := false, ring := port.ring.(write := 0, read := 0))];
        }
      }
    }
  }
}
