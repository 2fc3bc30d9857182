/** The server's send queue as it runs: the class of internal/server/sendqueue.go. */
module SendServer {
  import opened Base
  import opened SendQueue
  import opened SendPriority

  /** Write one slot of a buffer whose first `i` slots are in use. */
  method Store(a: array<Packet>, i: nat, p: Packet)
    requires i < a.Length
    modifies a
    ensures a[..i] == old(a[..i]) && a[..i + 1] == old(a[..i]) + [p]
  {
    a[i] := p;
  }

  /** The queue of the running server. `feed` says what else arrives before each receive. */
  class Sender {
    var ch: seq<Packet>
    var broadcastCh: seq<Packet>
    const maxSize: nat
    var written: seq<Packet>
    ghost var accepted: seq<Packet>

    ghost function State(): Queue
      reads this
    {
      Queue(ch, broadcastCh, written, accepted)
    }

    /** Channels never hold more than their capacity. */
    ghost predicate Valid()
      reads this
    {
      0 < maxSize && |ch| <= maxSize && |broadcastCh| <= BROADCAST_SIZE
    }

    constructor (maxSize: nat)
      requires maxSize > 0
      ensures Valid() && State() == Queue([], [], [], []) && this.maxSize == maxSize
    {
      ch, broadcastCh, this.maxSize, written, accepted := [], [], maxSize, [], [];
    }

    /** send: a low packet is dropped at once when the channel is full; a high one waits, and
        `spaceInTime` says whether the send loop makes room with a pass before the timer fires. */
    method Send(p: Packet, spaceInTime: bool, batch: array<Packet>, deferredLow: array<Packet>)
        returns (ok: bool, ghost taken: seq<Packet>)
      requires Valid() && batch.Length == BATCH && deferredLow.Length == BATCH && batch != deferredLow
      modifies this`ch, this`written, this`accepted, batch, deferredLow
      ensures Valid()
      ensures ok <==> |old(ch)| < maxSize || (p.high && spaceInTime)
      ensures !ok ==> State() == old(State())
      ensures |old(ch)| < maxSize ==> State() == Next(old(State()), Accepted(p))
      ensures |old(ch)| == maxSize && ok ==> ch != [] && PassEnds(taken, ch[..|ch| - 1]) && taken + ch[..|ch| - 1] == old(ch)
      ensures |old(ch)| == maxSize && ok ==> State() == Next(Next(old(State()), MainPass([], |taken|)), Accepted(p))
    {
      taken := [];
      if |ch| == maxSize {
        if !p.high || !spaceInTime { return false, taken; }
        ghost var arrived;
        taken, arrived := MainBranch([], batch, deferredLow);
      }
      ch := ch + [p];
      accepted := accepted + [p];
      ok := true;
    }

    /** sendBroadcast: never drops; a full channel is bypassed. */
    method SendBroadcast(data: Bytes, addr: Addr) returns (ok: bool)
      requires Valid()
      modifies this`broadcastCh, this`written, this`accepted
      ensures Valid() && ok
      ensures var p := Packet(data, addr, false);
              State() == Next(old(State()), if |old(broadcastCh)| < BROADCAST_SIZE then BroadcastAccepted(p)
                                            else BroadcastDirect(p, |old(written)|))
    {
      var p := Packet(data, addr, false);
      if |broadcastCh| < BROADCAST_SIZE {
        broadcastCh := broadcastCh + [p];
      } else {
        written := written + [p];
      }
      accepted := accepted + [p];
      ok := true;
    }

    /** One non-blocking receive from the main channel, after what arrived just before it: as much
        of what was offered as the channel could hold. */
    method Receive(offered: seq<Packet>) returns (p: Option<Packet>, ghost more: seq<Packet>)
      requires Valid()
      modifies this`ch, this`accepted
      ensures Valid() && more == Upto(offered, maxSize - |old(ch)|)
      ensures accepted == old(accepted) + more
      ensures p.None? <==> old(ch) + more == []
      ensures p.None? ==> ch == []
      ensures p.Some? ==> [p.value] + ch == old(ch) + more
    {
      more := Upto(offered, maxSize - |ch|);
      accepted := accepted + more;
      ch := ch + Upto(offered, maxSize - |ch|);
      if ch == [] { return None, more; }
      p := Some(ch[0]);
      ch := ch[1..];
    }

    /** The same within a pass that has taken `taken`, of what was in the channel and has arrived. */
    method TakeNext(offered: seq<Packet>, ghost taken: seq<Packet>, ghost start: seq<Packet>, ghost arrived: seq<Packet>,
                    ghost base: seq<Packet>) returns (got: Option<Packet>, ghost arrived': seq<Packet>)
      requires Valid() && taken + ch == start + arrived && accepted == base + arrived
      modifies this`ch, this`accepted
      ensures Valid() && accepted == base + arrived'
      ensures offered == [] ==> arrived' == arrived && (got.Some? ==> |ch| < |old(ch)|)
      ensures got.None? ==> ch == [] && taken + ch == start + arrived'
      ensures got.Some? ==> (taken + [got.value]) + ch == start + arrived'
    {
      ghost var before := ch;
      ghost var more;
      got, more := Receive(offered);
      Received(taken, before, start, arrived, more, got, ch);
      Associate2(base, arrived, more);
      arrived' := arrived + more;
    }

    /** The branch of run that received from the main channel. */
    method MainBranch(feed: seq<seq<Packet>>, batch: array<Packet>, deferredLow: array<Packet>)
        returns (ghost taken: seq<Packet>, ghost arrived: seq<Packet>)
      requires Valid() && ch != [] && batch.Length == BATCH && deferredLow.Length == BATCH && batch != deferredLow
      modifies this`ch, this`written, this`accepted, batch, deferredLow
      ensures Valid() && (feed == [] ==> arrived == [])
      ensures PassEnds(taken, ch) && taken + ch == old(ch) + arrived
      ensures State() == Next(old(State()), MainPass(arrived, |taken|))
    {
      ghost var q := State();
      var e := ch[0];
      ch := ch[1..];
      if e.high {
        taken, arrived := DrainHigh(e, feed, batch, deferredLow);
      } else {
        batch[0] := e;
        taken, arrived := DrainLow(e, feed, batch);
      }
      assert [e] + (q.ch[1..] + arrived) == q.ch + arrived;
      PassState(q, State(), taken, arrived);
    }

    method DrainHigh(e: Packet, feed: seq<seq<Packet>>, batch: array<Packet>, deferredLow: array<Packet>)
        returns (ghost taken: seq<Packet>, ghost arrived: seq<Packet>)
      requires Valid() && e.high && batch.Length == BATCH && deferredLow.Length == BATCH && batch != deferredLow
      modifies this`ch, this`written, this`accepted, batch, deferredLow
      ensures Valid() && (feed == [] ==> arrived == [])
      ensures PassEnds(taken, ch) && taken[0] == e
      ensures taken + ch == [e] + (old(ch) + arrived)
      ensures written == old(written) + PassOutput(taken)
      ensures accepted == old(accepted) + arrived
    {
      written := written + [e];
      ghost var rest;
      var n, deferred;
      n, deferred, rest, arrived := FillHigh(feed, batch, deferredLow);
      written := written + batch[..n];
      written := written + deferredLow[..deferred];
      taken := [e] + rest;
      HighPassEnds(e, rest, ch);
      HighPass(old(written), e, rest);
      Regroup([], [e], rest + ch, [e], old(ch) + arrived);
    }

    /** The receiving loop of the high branch. */
    method FillHigh(feed: seq<seq<Packet>>, batch: array<Packet>, deferredLow: array<Packet>)
        returns (n: nat, deferred: nat, ghost rest: seq<Packet>, ghost arrived: seq<Packet>)
      requires Valid() && batch.Length == BATCH && deferredLow.Length == BATCH && batch != deferredLow
      modifies this`ch, this`written, this`accepted, batch, deferredLow
      ensures Valid() && (feed == [] ==> arrived == [])
      ensures n <= BATCH && deferred <= BATCH
      ensures (ch == [] || |Highs(rest)| == BATCH) && NotOver(rest)
      ensures rest + ch == old(ch) + arrived && accepted == old(accepted) + arrived
      ensures Split(batch, n, deferredLow, deferred, rest)
      ensures written == old(written) + Beyond(Lows(rest), BATCH)
    {
      rest, arrived := [], [];
      n, deferred := 0, 0;
      var k := 0;
      while n < BATCH
        invariant Valid() && (feed == [] ==> arrived == []) && NotOver(rest)
        invariant 0 <= n <= BATCH && 0 <= k <= |feed| && 0 <= deferred <= BATCH
        invariant rest + ch == old(ch) + arrived
        invariant accepted == old(accepted) + arrived
        invariant Split(batch, n, deferredLow, deferred, rest)
        invariant written == old(written) + Beyond(Lows(rest), BATCH)
        decreases |feed| - k, |ch|
      {
        var offered := if k < |feed| then feed[k] else [];
        k := if k < |feed| then k + 1 else k;
        var got;
        got, arrived := TakeNext(offered, rest, old(ch), arrived, old(accepted));
        if got.None? { break; }
        n, deferred := PlaceHigh(got.value, batch, n, deferredLow, deferred, Highs(rest), Lows(rest), old(written));
        SnocSplit(rest, got.value);
        SnocNotOver(rest, got.value);
        rest := rest + [got.value];
      }
    }

    /** One received packet in the high branch: highs fill the batch, lows the deferred buffer while it has room. */
    method PlaceHigh(p: Packet, batch: array<Packet>, n: nat, deferredLow: array<Packet>, deferred: nat,
                     ghost hs: seq<Packet>, ghost ls: seq<Packet>, ghost first: seq<Packet>) returns (n': nat, deferred': nat)
      requires batch != deferredLow && batch.Length == BATCH && deferredLow.Length == BATCH && n < BATCH && deferred <= BATCH
      requires batch[..n] == hs && deferredLow[..deferred] == Upto(ls, BATCH) && written == first + Beyond(ls, BATCH)
      modifies this`written, batch, deferredLow
      ensures n' <= BATCH && deferred' <= BATCH
      ensures batch[..n'] == hs + HighPart(p) && deferredLow[..deferred'] == Upto(ls + LowPart(p), BATCH)
      ensures written == first + Beyond(ls + LowPart(p), BATCH)
    {
      n', deferred' := n, deferred;
      Store(batch, n, p);
      assert hs + [] == hs && ls + [] == ls;
      if !p.high {
        SnocUpto(ls, p);
        if deferred < BATCH {
          Store(deferredLow, deferred, p);
          deferred' := deferred + 1;
        } else {
          Associate2(first, Beyond(ls, BATCH), [p]);
          written := written + [p];
        }
      } else {
        n' := n + 1;
      }
    }

    method DrainLow(e: Packet, feed: seq<seq<Packet>>, batch: array<Packet>)
        returns (ghost taken: seq<Packet>, ghost arrived: seq<Packet>)
      requires Valid() && !e.high && batch.Length == BATCH && batch[0] == e
      modifies this`ch, this`written, this`accepted, batch
      ensures Valid() && (feed == [] ==> arrived == [])
      ensures PassEnds(taken, ch) && taken[0] == e
      ensures taken + ch == [e] + (old(ch) + arrived)
      ensures written == old(written) + PassOutput(taken)
      ensures accepted == old(accepted) + arrived
    {
      var n;
      n, taken, arrived := FillLow(e, feed, batch);
      written := written + batch[..n];
      LowPass(old(written), taken);
      Associate2([e], old(ch), arrived);
    }

    /** The receiving loop of the low branch. */
    method FillLow(e: Packet, feed: seq<seq<Packet>>, batch: array<Packet>)
        returns (n: nat, ghost taken: seq<Packet>, ghost arrived: seq<Packet>)
      requires Valid() && !e.high && batch.Length == BATCH && batch[0] == e
      modifies this`ch, this`written, this`accepted, batch
      ensures Valid() && (feed == [] ==> arrived == [])
      ensures n <= BATCH && PassEnds(taken, ch) && taken[0] == e
      ensures taken + ch == ([e] + old(ch)) + arrived && accepted == old(accepted) + arrived
      ensures batch[..n] == Lows(taken) && written == old(written) + Highs(taken)
    {
      taken, arrived := [e], [];
      ghost var start := [e] + ch;
      n := 1;
      var k := 0;
      while n < BATCH
        invariant Valid() && (feed == [] ==> arrived == []) && (|taken| > 1 ==> !Full(taken[..|taken| - 1]))
        invariant 1 <= n <= BATCH && 0 <= k <= |feed| && taken != [] && taken[0] == e
        invariant taken + ch == start + arrived
        invariant accepted == old(accepted) + arrived
        invariant batch[..n] == Lows(taken) && written == old(written) + Highs(taken)
        decreases |feed| - k, |ch|
      {
        var offered := if k < |feed| then feed[k] else [];
        k := if k < |feed| then k + 1 else k;
        var got;
        got, arrived := TakeNext(offered, taken, start, arrived, old(accepted));
        if got.None? { break; }
        n := PlaceLow(got.value, batch, n, Highs(taken), Lows(taken), old(written));
        SnocSplit(taken, got.value);
        assert (taken + [got.value])[..|taken|] == taken;
        taken := taken + [got.value];
      }
    }

    /** One received packet in the low branch: highs leave at once, lows fill the batch. */
    method PlaceLow(p: Packet, batch: array<Packet>, n: nat, ghost hs: seq<Packet>, ghost ls: seq<Packet>, ghost first: seq<Packet>)
        returns (n': nat)
      requires batch.Length == BATCH && n < BATCH
      requires batch[..n] == ls && written == first + hs
      modifies this`written, batch
      ensures n <= n' <= BATCH
      ensures batch[..n'] == ls + LowPart(p) && written == first + (hs + HighPart(p))
    {
      n' := n;
      Store(batch, n, p);
      assert hs + [] == hs && ls + [] == ls;
      if p.high {
        Associate2(first, hs, [p]);
        written := written + [p];
      } else {
        n' := n + 1;
      }
    }

    /** The branch of run that received from the broadcast channel. */
    method BroadcastBranch(feed: seq<seq<Packet>>, batch: array<Packet>) returns (ghost n: nat, ghost arrived: seq<Packet>)
      requires Valid() && broadcastCh != [] && batch.Length == BATCH
      requires forall i :: 0 <= i < |feed| ==> Highs(feed[i]) == []
      modifies this`broadcastCh, this`written, this`accepted, batch
      ensures Valid() && 0 < n <= |old(broadcastCh) + arrived| && Highs(arrived) == []
      ensures n <= BATCH + 1 && (broadcastCh == [] || n == BATCH + 1)
      ensures State() == Next(old(State()), BroadcastPass(arrived, n))
    {
      ghost var q := State();
      var e := broadcastCh[0];
      broadcastCh := broadcastCh[1..];
      written := written + [e];
      var m;
      m, arrived := FillBroadcast(feed, batch);
      written := written + batch[..m];
      n := m + 1;
      BroadcastState(q, State(), e, batch[..m], arrived);
    }

    /** The receiving loop of the broadcast branch. */
    method FillBroadcast(feed: seq<seq<Packet>>, batch: array<Packet>) returns (n: nat, ghost arrived: seq<Packet>)
      requires Valid() && batch.Length == BATCH
      requires forall i :: 0 <= i < |feed| ==> Highs(feed[i]) == []
      modifies this`broadcastCh, this`accepted, batch
      ensures Valid() && Highs(arrived) == []
      ensures n <= BATCH && (broadcastCh == [] || n == BATCH)
      ensures accepted == old(accepted) + arrived
      ensures batch[..n] + broadcastCh == old(broadcastCh) + arrived
    {
      n, arrived := 0, [];
      while n < BATCH
        invariant Valid() && 0 <= n <= BATCH && Highs(arrived) == []
        invariant accepted == old(accepted) + arrived
        invariant batch[..n] + broadcastCh == old(broadcastCh) + arrived
        decreases BATCH - n
      {
        arrived := OfferBroadcast(if n < |feed| then feed[n] else [], batch[..n], old(broadcastCh), arrived, old(accepted));
        if broadcastCh == [] { break; }
        TakeBroadcast(batch, n);
        n := n + 1;
      }
    }

    /** What arrives on the broadcast channel just before a receive: as much as it can hold. */
    method OfferBroadcast(offered: seq<Packet>, ghost taken: seq<Packet>, ghost start: seq<Packet>, ghost arrived: seq<Packet>,
                          ghost base: seq<Packet>) returns (ghost arrived': seq<Packet>)
      requires Valid() && taken + broadcastCh == start + arrived && accepted == base + arrived
      requires Highs(offered) == [] && Highs(arrived) == []
      modifies this`broadcastCh, this`accepted
      ensures Valid() && taken + broadcastCh == start + arrived' && accepted == base + arrived' && Highs(arrived') == []
    {
      var room := BROADCAST_SIZE - |broadcastCh|;
      var more := Upto(offered, room);
      NoHighs(offered, room);
      LowsAppended(arrived, more);
      Extend(taken, broadcastCh, start, arrived, more);
      Associate2(base, arrived, more);
      broadcastCh, accepted, arrived' := broadcastCh + more, accepted + more, arrived + more;
    }

    method TakeBroadcast(batch: array<Packet>, n: nat)
      requires n < batch.Length && broadcastCh != []
      modifies this`broadcastCh, batch
      ensures batch[..n + 1] + broadcastCh == old(batch[..n]) + old(broadcastCh) && |broadcastCh| == |old(broadcastCh)| - 1
    {
      Taken(batch[..n], broadcastCh);
      Store(batch, n, broadcastCh[0]);
      broadcastCh := broadcastCh[1..];
    }

    /** The send loop over its main channel while nothing arrives. */
    method RunUntilEmpty(batch: array<Packet>, deferredLow: array<Packet>)
      requires Valid() && batch.Length == BATCH && deferredLow.Length == BATCH && batch != deferredLow
      modifies this`ch, this`written, this`accepted, batch, deferredLow
      ensures Valid() && ch == [] && accepted == old(accepted)
      ensures written == old(written) + DrainOut(old(ch))
    {
      assert old(written) + DrainOut(ch) == written + DrainOut(ch);
      while ch != []
        invariant Valid() && accepted == old(accepted)
        invariant written + DrainOut(ch) == old(written) + DrainOut(old(ch))
        decreases |ch|
      {
        ghost var before, out := ch, written;
        ghost var taken, arrived := MainBranch([], batch, deferredLow);
        PassDrains(before, taken, ch);
        Associate2(out, PassOutput(taken), DrainOut(ch));
      }
      assert written + DrainOut([]) == written;
    }

    /** drain: everything left leaves, the main channel first. */
    method Drained()
      modifies this`ch, this`broadcastCh, this`written
      ensures State() == Next(old(State()), Drain)
    {
      while ch != []
        invariant written + ch == old(written) + old(ch)
        invariant broadcastCh == old(broadcastCh)
        decreases |ch|
      {
        Taken(written, ch);
        written, ch := written + [ch[0]], ch[1..];
      }
      assert written + ch == written;
      while broadcastCh != []
        invariant ch == []
        invariant written + broadcastCh == old(written) + old(ch) + old(broadcastCh)
        decreases |broadcastCh|
      {
        Taken(written, broadcastCh);
        written, broadcastCh := written + [broadcastCh[0]], broadcastCh[1..];
      }
      assert written + broadcastCh == written;
    }
  }

  lemma Received(rest: seq<Packet>, before: seq<Packet>, start: seq<Packet>, arrived: seq<Packet>, more: seq<Packet>,
                 got: Option<Packet>, after: seq<Packet>)
    requires rest + before == start + arrived
    requires got.None? ==> before + more == [] && after == []
    requires got.Some? ==> [got.value] + after == before + more
    ensures got.None? ==> rest + after == start + (arrived + more)
    ensures got.Some? ==> (rest + [got.value]) + after == start + (arrived + more)
  {
    assert start + (arrived + more) == (start + arrived) + more;
    assert (rest + before) + more == rest + (before + more);
    if got.Some? {
      assert (rest + [got.value]) + after == rest + ([got.value] + after);
    }
  }

  /** One packet earlier the batch was not full. */
  ghost predicate NotOver(rest: seq<Packet>) { rest != [] ==> |Highs(rest[..|rest| - 1])| < BATCH }

  lemma SnocNotOver(rest: seq<Packet>, p: Packet)
    requires |Highs(rest)| < BATCH
    ensures NotOver(rest + [p])
  {
    assert (rest + [p])[..|rest + [p]| - 1] == rest;
  }

  lemma HighPassEnds(e: Packet, rest: seq<Packet>, ch: seq<Packet>)
    requires e.high && (ch == [] || |Highs(rest)| == BATCH) && NotOver(rest)
    ensures PassEnds([e] + rest, ch)
  {
    var taken := [e] + rest;
    HeadHigh(e, rest);
    if rest != [] {
      var init := rest[..|rest| - 1];
      assert taken[..|taken| - 1] == [e] + init;
      HeadHigh(e, init);
    }
  }

  lemma HeadHigh(e: Packet, rest: seq<Packet>)
    requires e.high
    ensures |Highs([e] + rest)| == |Highs(rest)| + 1
  {
    HeadFirst([e] + rest);
  }

  /** A pass that ends on a channel is its first pass. */
  lemma PassDrains(ch: seq<Packet>, taken: seq<Packet>, rest: seq<Packet>)
    requires PassEnds(taken, rest) && taken + rest == ch
    ensures DrainOut(ch) == PassOutput(taken) + DrainOut(rest)
  {
    var n := |taken|;
    assert ch[..n] == taken && ch[n..] == rest;
    PassLenUnique(ch, n);
  }

  lemma HighPass(base: seq<Packet>, e: Packet, rest: seq<Packet>)
    requires e.high
    ensures base + [e] + Beyond(Lows(rest), BATCH) + Highs(rest) + Upto(Lows(rest), BATCH) == base + PassOutput([e] + rest)
  {
    assert ([e] + rest)[1..] == rest;
    Associate(base, [e], Beyond(Lows(rest), BATCH), Highs(rest), Upto(Lows(rest), BATCH));
  }


  lemma Associate(base: seq<Packet>, a: seq<Packet>, b: seq<Packet>, c: seq<Packet>, d: seq<Packet>)
    ensures base + a + b + c + d == base + (a + b + c + d)
  {
  }

  lemma LowPass(base: seq<Packet>, taken: seq<Packet>)
    requires taken != [] && !taken[0].high
    ensures base + Highs(taken) + Lows(taken) == base + PassOutput(taken)
  {
  }

  lemma Extend(taken: seq<Packet>, ch: seq<Packet>, start: seq<Packet>, arrived: seq<Packet>, more: seq<Packet>)
    requires taken + ch == start + arrived
    ensures taken + (ch + more) == start + (arrived + more)
  {
    assert start + (arrived + more) == (start + arrived) + more;
    assert (taken + ch) + more == taken + (ch + more);
  }

  /** The two buffers hold what was met so far: the highs, and the first 64 lows. */
  ghost predicate Split(batch: array<Packet>, n: nat, deferredLow: array<Packet>, deferred: nat, rest: seq<Packet>)
    requires n <= batch.Length && deferred <= deferredLow.Length
    reads batch, deferredLow
  {
    batch[..n] == Highs(rest) && deferredLow[..deferred] == Upto(Lows(rest), BATCH)
  }

  lemma SnocUpto(s: seq<Packet>, p: Packet)
    ensures |s| < BATCH ==> Upto(s + [p], BATCH) == Upto(s, BATCH) + [p] && Beyond(s + [p], BATCH) == Beyond(s, BATCH)
    ensures |s| >= BATCH ==> Upto(s + [p], BATCH) == Upto(s, BATCH) && Beyond(s + [p], BATCH) == Beyond(s, BATCH) + [p]
  {
  }

  lemma Taken(taken: seq<Packet>, ch: seq<Packet>)
    requires ch != []
    ensures (taken + [ch[0]]) + ch[1..] == taken + ch
  {
  }


  lemma BroadcastState(q: Queue, r: Queue, e: Packet, batch: seq<Packet>, arrivals: seq<Packet>)
    requires q.broadcast != [] && q.broadcast[0] == e && Highs(arrivals) == []
    requires batch + r.broadcast == q.broadcast[1..] + arrivals && r.ch == q.ch
    requires r.written == q.written + [e] + batch && r.accepted == q.accepted + arrivals
    ensures |batch| + 1 <= |q.broadcast + arrivals|
    ensures r == Next(q, BroadcastPass(arrivals, |batch| + 1))
  {
    var taken := [e] + batch;
    assert taken + r.broadcast == [e] + (batch + r.broadcast);
    assert q.broadcast + arrivals == [e] + (q.broadcast[1..] + arrivals);
    assert (q.broadcast + arrivals)[..|taken|] == taken && (q.broadcast + arrivals)[|taken|..] == r.broadcast;
    assert q.written + [e] + batch == q.written + taken;
  }

  lemma PassState(q: Queue, r: Queue, taken: seq<Packet>, arrivals: seq<Packet>)
    requires taken != [] && taken + r.ch == q.ch + arrivals && r.broadcast == q.broadcast
    requires r.written == q.written + PassOutput(taken) && r.accepted == q.accepted + arrivals
    ensures r == Next(q, MainPass(arrivals, |taken|))
  {
    assert (q.ch + arrivals)[..|taken|] == taken && (q.ch + arrivals)[|taken|..] == r.ch;
  }
}
