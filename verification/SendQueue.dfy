/**
 The server's send queue: internal/server/sendqueue.go. One pass of the send
 loop takes a run of packets from a channel and writes them out, highs first,
 through two fixed buffers of 64; nothing is lost, invented or kept.
 */
module SendQueue {
  import opened Base

  datatype Packet = Packet(data: Bytes, addr: Addr, high: bool)

  const BATCH := 64
  const BROADCAST_SIZE := 4096

  // ── What a pass writes ─────────────────────────────────────────

  function HighPart(p: Packet): seq<Packet> { if p.high then [p] else [] }

  function LowPart(p: Packet): seq<Packet> { if p.high then [] else [p] }

  function Highs(s: seq<Packet>): seq<Packet> {
    if s == [] then []
    else if s[|s| - 1].high then Highs(s[..|s| - 1]) + [s[|s| - 1]]
    else Highs(s[..|s| - 1])
  }

  function Lows(s: seq<Packet>): seq<Packet> {
    if s == [] then []
    else if s[|s| - 1].high then Lows(s[..|s| - 1])
    else Lows(s[..|s| - 1]) + [s[|s| - 1]]
  }

  function Upto(s: seq<Packet>, n: nat): seq<Packet> { if |s| <= n then s else s[..n] }

  function Beyond(s: seq<Packet>, n: nat): seq<Packet> { if |s| <= n then [] else s[n..] }

  /** After a high packet: it, the lows that do not fit the deferred buffer, the highs, the deferred lows.
      After a low one: the highs met on the way, then the lows. */
  function PassOutput(taken: seq<Packet>): seq<Packet>
    requires taken != []
  {
    if taken[0].high then
      [taken[0]] + Beyond(Lows(taken[1..]), BATCH) + Highs(taken[1..]) + Upto(Lows(taken[1..]), BATCH)
    else Highs(taken) + Lows(taken)
  }

  lemma {:induction false} HighsConcat(a: seq<Packet>, b: seq<Packet>)
    ensures Highs(a + b) == Highs(a) + Highs(b) && Lows(a + b) == Lows(a) + Lows(b)
  {
    if b == [] {
      assert a + b == a;
    } else {
      var n := |b| - 1;
      assert (a + b)[..|a + b| - 1] == a + b[..n];
      HighsConcat(a, b[..n]);
    }
  }

  lemma {:induction false} HighsOfHighs(s: seq<Packet>)
    ensures Highs(Highs(s)) == Highs(s) && Lows(Highs(s)) == []
    ensures Highs(Lows(s)) == [] && Lows(Lows(s)) == Lows(s)
  {
    if s != [] {
      var n := |s| - 1;
      HighsOfHighs(s[..n]);
      if s[n].high {
        assert Lows(s) == Lows(s[..n]);
        HighsConcat(Highs(s[..n]), [s[n]]);
        assert Highs([s[n]]) == [s[n]] && Lows([s[n]]) == [];
      } else {
        assert Highs(s) == Highs(s[..n]);
        HighsConcat(Lows(s[..n]), [s[n]]);
        assert Highs([s[n]]) == [] && Lows([s[n]]) == [s[n]];
      }
    }
  }

  lemma {:induction false} SplitIsPermutation(s: seq<Packet>)
    ensures multiset(Highs(s)) + multiset(Lows(s)) == multiset(s)
  {
    if s != [] {
      SplitIsPermutation(s[..|s| - 1]);
      assert s == s[..|s| - 1] + [s[|s| - 1]];
    }
  }

  lemma UptoBeyond(s: seq<Packet>, n: nat)
    ensures Upto(s, n) + Beyond(s, n) == s
  {
  }

  lemma HeadFirst(s: seq<Packet>)
    requires s != []
    ensures [s[0]] + s[1..] == s
    ensures s[0].high ==> Highs(s) == [s[0]] + Highs(s[1..]) && Lows(s) == Lows(s[1..])
  {
    assert [s[0]] + s[1..] == s;
    HighsConcat([s[0]], s[1..]);
    assert [s[0]][..0] == [];
  }

  /** A pass writes exactly the multiset it took. */
  lemma PassIsPermutation(taken: seq<Packet>)
    requires taken != []
    ensures multiset(PassOutput(taken)) == multiset(taken)
  {
    if taken[0].high {
      var e, rest := taken[0], taken[1..];
      var a, h, b := Beyond(Lows(rest), BATCH), Highs(rest), Upto(Lows(rest), BATCH);
      HeadFirst(taken);
      SplitIsPermutation(rest);
      UptoBeyond(Lows(rest), BATCH);
      calc {
        multiset([e] + a + h + b);
        multiset([e]) + multiset(a) + multiset(h) + multiset(b);
        multiset([e]) + (multiset(h) + multiset(b + a));
        multiset([e]) + multiset(rest);
        multiset([e] + rest);
      }
    } else {
      SplitIsPermutation(taken);
    }
  }

  /** High packets leave in the order they came. */
  lemma PassKeepsHighOrder(taken: seq<Packet>)
    requires taken != []
    ensures Highs(PassOutput(taken)) == Highs(taken)
  {
    if taken[0].high {
      var rest := taken[1..];
      HeadFirst(taken);
      HighsOfHighs(rest);
      NoHighs(Lows(rest), BATCH);
      HighPassParts(taken[0], Beyond(Lows(rest), BATCH), Highs(rest), Upto(Lows(rest), BATCH));
    } else {
      HighsOfHighs(taken);
      HighsConcat(Highs(taken), Lows(taken));
    }
  }

  /** Lows, then highs, then lows, after a high. */
  lemma HighPassParts(e: Packet, a: seq<Packet>, h: seq<Packet>, b: seq<Packet>)
    requires e.high && Highs(a) == [] && Highs(b) == []
    ensures Highs([e] + a + h + b) == [e] + Highs(h) && Lows([e] + a + h + b) == Lows(a) + Lows(h) + Lows(b)
  {
    FourParts([e], a, h, b);
    OneHigh(e);
    NoGaps([e], Highs(h));
    NoFront(Lows(a), Lows(h), Lows(b));
  }

  lemma NoGaps(w: seq<Packet>, y: seq<Packet>)
    ensures w + [] + y + [] == w + y
  {
  }

  lemma NoFront(x: seq<Packet>, y: seq<Packet>, z: seq<Packet>)
    ensures [] + x + y + z == x + y + z
  {
  }

  lemma OneHigh(e: Packet)
    requires e.high
    ensures Highs([e]) == [e] && Lows([e]) == []
  {
    assert [e][..0] == [];
  }

  lemma FourParts(w: seq<Packet>, x: seq<Packet>, y: seq<Packet>, z: seq<Packet>)
    ensures Highs(w + x + y + z) == Highs(w) + Highs(x) + Highs(y) + Highs(z)
    ensures Lows(w + x + y + z) == Lows(w) + Lows(x) + Lows(y) + Lows(z)
  {
    HighsConcat(w, x);
    HighsConcat(w + x, y);
    HighsConcat(w + x + y, z);
  }

  lemma NoHighs(s: seq<Packet>, n: nat)
    requires Highs(s) == []
    ensures Highs(Upto(s, n)) == [] && Highs(Beyond(s, n)) == []
  {
    UptoBeyond(s, n);
    HighsConcat(Upto(s, n), Beyond(s, n));
  }

  /** With at most 64 low packets on the way, a pass is the stable highs-first partition. */
  lemma PassIsStablePartition(taken: seq<Packet>)
    requires taken != [] && |Lows(taken)| <= BATCH
    ensures PassOutput(taken) == Highs(taken) + Lows(taken)
  {
    if taken[0].high {
      HeadFirst(taken);
      assert [taken[0]] + [] == [taken[0]];
    }
  }

  lemma {:induction false} PartsArePure(s: seq<Packet>)
    ensures forall i :: 0 <= i < |Highs(s)| ==> Highs(s)[i].high
    ensures forall i :: 0 <= i < |Lows(s)| ==> !Lows(s)[i].high
  {
    if s != [] { PartsArePure(s[..|s| - 1]); }
  }

  /** No high packet leaves after a low one. */
  ghost predicate HighsFirst(out: seq<Packet>) {
    forall i, j :: 0 <= i < j < |out| && out[j].high ==> out[i].high
  }

  lemma JoinedHighsFirst(hs: seq<Packet>, ls: seq<Packet>)
    requires (forall i :: 0 <= i < |hs| ==> hs[i].high) && (forall i :: 0 <= i < |ls| ==> !ls[i].high)
    ensures HighsFirst(hs + ls)
  {
  }

  /** Exactly when a pass sends its highs first: a full deferred buffer lets lows overtake the batch. */
  lemma HighsLeaveFirst(taken: seq<Packet>)
    requires taken != []
    ensures HighsFirst(PassOutput(taken))
            <==> !taken[0].high || |Lows(taken[1..])| <= BATCH || Highs(taken[1..]) == []
  {
    if !taken[0].high {
      PartsArePure(taken);
      JoinedHighsFirst(Highs(taken), Lows(taken));
    } else {
      OvertakenHighs(taken[0], Highs(taken[1..]), Lows(taken[1..])) by { PartsArePure(taken[1..]); }
    }
  }

  lemma OvertakenHighs(e: Packet, hs: seq<Packet>, ls: seq<Packet>)
    requires e.high && (forall i :: 0 <= i < |hs| ==> hs[i].high) && (forall i :: 0 <= i < |ls| ==> !ls[i].high)
    ensures HighsFirst([e] + Beyond(ls, BATCH) + hs + Upto(ls, BATCH)) <==> |ls| <= BATCH || hs == []
  {
    var a, b := Beyond(ls, BATCH), Upto(ls, BATCH);
    var out := [e] + a + hs + b;
    if |ls| <= BATCH {
      assert out == ([e] + hs) + b;
      JoinedHighsFirst([e] + hs, b);
    } else if hs == [] {
      assert out == [e] + (a + b);
      JoinedHighsFirst([e], a + b);
    } else {
      assert !out[1].high by { assert out[1] == a[0] && a[0] == ls[BATCH]; }
      assert out[1 + |a|] == hs[0];
    }
  }

  // ── The queue over whole runs ──────────────────────────────────

  /** Both channels, everything written to the socket, everything accepted for sending. */
  datatype Queue = Queue(ch: seq<Packet>, broadcast: seq<Packet>, written: seq<Packet>, accepted: seq<Packet>)

  datatype Event =
    | Accepted(p: Packet)
    | BroadcastAccepted(p: Packet)
    | BroadcastDirect(p: Packet, at: nat)
    | MainPass(arrivals: seq<Packet>, n: nat)
    | BroadcastPass(arrivals: seq<Packet>, n: nat)
    | Drain

  /** A direct broadcast write comes from another thread and lands anywhere, also amid the writes of
      a pass. Packets go on arriving during a pass; it takes the first `n` of what is then in the channel. */
  predicate Enabled(q: Queue, e: Event) {
    match e
    case MainPass(arrivals, n) => 0 < n <= |q.ch + arrivals|
    case BroadcastPass(arrivals, n) => 0 < n <= |q.broadcast + arrivals| && Highs(arrivals) == []
    case BroadcastAccepted(p) => !p.high
    case BroadcastDirect(p, at) => !p.high && at <= |q.written|
    case _ => true
  }

  function Next(q: Queue, e: Event): Queue
    requires Enabled(q, e)
  {
    match e
    case Accepted(p) => q.(ch := q.ch + [p], accepted := q.accepted + [p])
    case BroadcastAccepted(p) => q.(broadcast := q.broadcast + [p], accepted := q.accepted + [p])
    case BroadcastDirect(p, at) => q.(written := q.written[..at] + [p] + q.written[at..], accepted := q.accepted + [p])
    case MainPass(arrivals, n) =>
      Queue((q.ch + arrivals)[n..], q.broadcast, q.written + PassOutput((q.ch + arrivals)[..n]), q.accepted + arrivals)
    case BroadcastPass(arrivals, n) =>
      Queue(q.ch, (q.broadcast + arrivals)[n..], q.written + (q.broadcast + arrivals)[..n], q.accepted + arrivals)
    case Drain => Queue([], [], q.written + q.ch + q.broadcast, q.accepted)
  }

  /** Everything accepted is written once or still queued. */
  ghost predicate Lossless(q: Queue) {
    multiset(q.written) + multiset(q.ch) + multiset(q.broadcast) == multiset(q.accepted)
  }

  /** The highs written, then those queued, are those accepted, in order. */
  ghost predicate InOrder(q: Queue) {
    Highs(q.written) + Highs(q.ch) == Highs(q.accepted) && Highs(q.broadcast) == []
  }

  ghost predicate Conserved(q: Queue) { Lossless(q) && InOrder(q) }

  lemma SplitAt(s: seq<Packet>, n: nat)
    requires n <= |s|
    ensures multiset(s[..n]) + multiset(s[n..]) == multiset(s)
    ensures Highs(s[..n]) + Highs(s[n..]) == Highs(s)
  {
    assert s == s[..n] + s[n..];
    HighsConcat(s[..n], s[n..]);
  }

  lemma MainPassLossless(q: Queue, arrivals: seq<Packet>, n: nat)
    requires Lossless(q) && 0 < n <= |q.ch + arrivals|
    ensures Lossless(Next(q, MainPass(arrivals, n)))
  {
    var all := q.ch + arrivals;
    SplitAt(all, n);
    PassIsPermutation(all[..n]);
    Exchange(multiset(q.written), multiset(all[..n]), multiset(all[n..]), multiset(q.ch), multiset(arrivals), multiset(q.broadcast));
  }

  lemma Exchange(w: multiset<Packet>, t: multiset<Packet>, r: multiset<Packet>, c: multiset<Packet>, a: multiset<Packet>, b: multiset<Packet>)
    requires t + r == c + a
    ensures (w + t) + r + b == (w + c + b) + a
  {
    calc {
      (w + t) + r + b;
      w + (t + r) + b;
      w + (c + a) + b;
      (w + c + b) + a;
    }
  }

  lemma Swap(w: multiset<Packet>, x: multiset<Packet>, y: multiset<Packet>)
    ensures w + x + y == w + y + x
  {
  }

  lemma MainPassInOrder(q: Queue, arrivals: seq<Packet>, n: nat)
    requires InOrder(q) && 0 < n <= |q.ch + arrivals|
    ensures InOrder(Next(q, MainPass(arrivals, n)))
  {
    var all := q.ch + arrivals;
    var out := PassOutput(all[..n]);
    SplitAt(all, n);
    PassKeepsHighOrder(all[..n]);
    HighsConcat(q.ch, arrivals);
    HighsConcat(q.written, out);
    HighsConcat(q.accepted, arrivals);
    Regroup(Highs(q.written), Highs(all[..n]), Highs(all[n..]), Highs(q.ch), Highs(arrivals));
  }

  lemma Regroup(w: seq<Packet>, t: seq<Packet>, r: seq<Packet>, c: seq<Packet>, a: seq<Packet>)
    requires t + r == c + a
    ensures (w + t) + r == (w + c) + a
  {
    assert (w + t) + r == w + (t + r);
    assert (w + c) + a == w + (c + a);
  }

  lemma BroadcastPassLossless(q: Queue, arrivals: seq<Packet>, n: nat)
    requires Lossless(q) && 0 < n <= |q.broadcast + arrivals| && Highs(arrivals) == []
    ensures Lossless(Next(q, BroadcastPass(arrivals, n)))
  {
    var all := q.broadcast + arrivals;
    SplitAt(all, n);
    var w, t, r := multiset(q.written), multiset(all[..n]), multiset(all[n..]);
    Exchange(w, t, r, multiset(q.broadcast), multiset(arrivals), multiset(q.ch));
    Swap(w + t, r, multiset(q.ch));
    Swap(w, multiset(q.broadcast), multiset(q.ch));
  }

  lemma BroadcastPassInOrder(q: Queue, arrivals: seq<Packet>, n: nat)
    requires InOrder(q) && 0 < n <= |q.broadcast + arrivals| && Highs(arrivals) == []
    ensures InOrder(Next(q, BroadcastPass(arrivals, n)))
  {
    var all := q.broadcast + arrivals;
    SplitAt(all, n);
    HighsConcat(q.broadcast, arrivals);
    assert Highs(all) == [];
    NoHighs(all, n);
    LowsAppended(q.written, all[..n]);
    LowsAppended(q.accepted, arrivals);
  }

  lemma LowsAppended(s: seq<Packet>, t: seq<Packet>)
    requires Highs(t) == []
    ensures Highs(s + t) == Highs(s)
  {
    HighsConcat(s, t);
  }

  lemma AcceptedLossless(q: Queue, p: Packet)
    requires Lossless(q)
    ensures Lossless(Next(q, Accepted(p)))
  {
  }

  lemma AcceptedInOrder(q: Queue, p: Packet)
    requires InOrder(q)
    ensures InOrder(Next(q, Accepted(p)))
  {
    SnocSplit(q.ch, p);
    SnocSplit(q.accepted, p);
    Associate2(Highs(q.written), Highs(q.ch), HighPart(p));
  }

  lemma DrainConserves(q: Queue)
    requires Conserved(q)
    ensures Conserved(Next(q, Drain))
  {
    HighsConcat(q.written + q.ch, q.broadcast);
    HighsConcat(q.written, q.ch);
  }

  lemma BroadcastLossless(q: Queue, p: Packet)
    requires Lossless(q) && !p.high
    ensures Lossless(Next(q, BroadcastAccepted(p)))
  {
  }

  lemma DirectLossless(q: Queue, p: Packet, at: nat)
    requires Lossless(q) && !p.high && at <= |q.written|
    ensures Lossless(Next(q, BroadcastDirect(p, at)))
  {
    SplitAt(q.written, at);
    var w := multiset(q.written);
    assert multiset(q.written[..at] + [p] + q.written[at..]) == w + multiset{p};
    Exchange(w, multiset{p}, multiset(q.ch), multiset(q.ch), multiset{p}, multiset(q.broadcast));
  }

  lemma DirectInOrder(q: Queue, p: Packet, at: nat)
    requires InOrder(q) && !p.high && at <= |q.written|
    ensures InOrder(Next(q, BroadcastDirect(p, at)))
  {
    var a, b := q.written[..at], q.written[at..];
    SplitAt(q.written, at);
    SnocSplit(a, p);
    HighsConcat(a + [p], b);
    SnocSplit(q.accepted, p);
  }

  lemma BroadcastInOrder(q: Queue, p: Packet)
    requires InOrder(q) && !p.high
    ensures InOrder(Next(q, BroadcastAccepted(p)))
  {
    SnocSplit(q.broadcast, p);
    SnocSplit(q.accepted, p);
  }

  lemma StepConserves(q: Queue, e: Event)
    requires Conserved(q) && Enabled(q, e)
    ensures Conserved(Next(q, e))
  {
    match e
    case Accepted(p) => AcceptedLossless(q, p); AcceptedInOrder(q, p);
    case BroadcastAccepted(p) => BroadcastLossless(q, p); BroadcastInOrder(q, p);
    case BroadcastDirect(p, at) => DirectLossless(q, p, at); DirectInOrder(q, p, at);
    case MainPass(arrivals, n) => MainPassLossless(q, arrivals, n); MainPassInOrder(q, arrivals, n);
    case BroadcastPass(arrivals, n) => BroadcastPassLossless(q, arrivals, n); BroadcastPassInOrder(q, arrivals, n);
    case Drain => DrainConserves(q);
  }

  ghost predicate Run(q: Queue, es: seq<Event>, r: Queue)
    decreases |es|
  {
    if es == [] then q == r else Enabled(q, es[0]) && Run(Next(q, es[0]), es[1..], r)
  }

  /** Main theorem: over any run, everything accepted is written once or still queued, and the
      high packets written, followed by those queued, are those accepted, in order. */
  lemma {:induction false} RunConserves(q: Queue, es: seq<Event>, r: Queue)
    requires Conserved(q) && Run(q, es, r)
    ensures Conserved(r)
    decreases |es|
  {
    if es != [] {
      StepConserves(q, es[0]);
      RunConserves(Next(q, es[0]), es[1..], r);
    }
  }

  // ── What keeps its order ───────────────────────────────────────

  lemma {:induction false} OnlyLows(s: seq<Packet>)
    requires Highs(s) == []
    ensures Lows(s) == s
  {
    if s != [] {
      var n := |s| - 1;
      OnlyLows(s[..n]);
      assert s == s[..n] + [s[n]];
    }
  }

  /** A pass that meets no high writes what it took, in order. */
  lemma LowPassInOrder(taken: seq<Packet>)
    requires taken != [] && Highs(taken) == []
    ensures PassOutput(taken) == taken
  {
    OnlyLows(taken);
    if taken[0].high { HeadFirst(taken); }
  }

  /** After a high packet the first 64 lows leave last; lows beyond them leave earlier; each group in order. */
  lemma LowsOfHighPass(taken: seq<Packet>)
    requires taken != [] && taken[0].high
    ensures var ls := Lows(taken);
            Lows(PassOutput(taken)) == if |ls| <= 64 then ls else ls[64..] + ls[..64]
  {
    var rest := taken[1..];
    HeadFirst(taken);
    LowsOfParts(taken[0], Highs(rest), Lows(rest)) by { HighsOfHighs(rest); }
  }

  lemma LowsOfParts(e: Packet, h: seq<Packet>, ls: seq<Packet>)
    requires e.high && Lows(h) == [] && Highs(ls) == []
    ensures Lows([e] + Beyond(ls, BATCH) + h + Upto(ls, BATCH)) == if |ls| <= 64 then ls else ls[64..] + ls[..64]
  {
    var a, b := Beyond(ls, BATCH), Upto(ls, BATCH);
    NoHighs(ls, BATCH);
    OnlyLows(a);
    OnlyLows(b);
    HighPassParts(e, a, h, b);
    assert a + [] == a;
    assert [] + b == b;
  }

  /** Written and still queued, in that order, is what was accepted, in order. */
  ghost predicate MainFifo(q: Queue) { q.written + q.ch == q.accepted && q.broadcast == [] && Highs(q.accepted) == [] }

  ghost predicate BroadcastFifo(q: Queue) { q.written + q.broadcast == q.accepted && q.ch == [] && Highs(q.accepted) == [] }

  lemma AcceptedFifo(q: Queue, p: Packet)
    requires MainFifo(q) && !p.high
    ensures MainFifo(Next(q, Accepted(p)))
  {
    SnocSplit(q.accepted, p);
    Associate2(q.written, q.ch, [p]);
  }

  lemma MainPassFifo(q: Queue, arrivals: seq<Packet>, n: nat)
    requires MainFifo(q) && 0 < n <= |q.ch + arrivals| && Highs(arrivals) == []
    ensures MainFifo(Next(q, MainPass(arrivals, n)))
  {
    HighsConcat(q.written, q.ch);
    HighsConcat(q.accepted, arrivals);
    LowFrontInOrder(q.ch, arrivals, n);
    PassFifo(q.written, q.ch, arrivals, q.accepted, n);
  }

  lemma LowFrontInOrder(ch: seq<Packet>, arrivals: seq<Packet>, n: nat)
    requires Highs(ch) == [] && Highs(arrivals) == [] && 0 < n <= |ch + arrivals|
    ensures PassOutput((ch + arrivals)[..n]) == (ch + arrivals)[..n]
  {
    HighsConcat(ch, arrivals);
    LowFront(ch + arrivals, n);
    LowPassInOrder((ch + arrivals)[..n]);
  }

  lemma LowFront(s: seq<Packet>, n: nat)
    requires Highs(s) == [] && n <= |s|
    ensures Highs(s[..n]) == []
  {
    SplitAt(s, n);
  }

  lemma PassFifo(written: seq<Packet>, ch: seq<Packet>, arrivals: seq<Packet>, accepted: seq<Packet>, n: nat)
    requires written + ch == accepted && n <= |ch + arrivals|
    ensures (written + (ch + arrivals)[..n]) + (ch + arrivals)[n..] == accepted + arrivals
  {
    var all := ch + arrivals;
    assert all[..n] + all[n..] == all;
    Associate2(written, all[..n], all[n..]);
    Associate2(written, ch, arrivals);
  }

  lemma MainStepFifo(q: Queue, e: Event)
    requires MainFifo(q) && Enabled(q, e)
    requires (e.Accepted? && !e.p.high) || (e.MainPass? && Highs(e.arrivals) == [])
    ensures MainFifo(Next(q, e))
  {
    match e
    case Accepted(p) => AcceptedFifo(q, p);
    case MainPass(arrivals, n) => MainPassFifo(q, arrivals, n);
  }

  lemma BroadcastStepFifo(q: Queue, e: Event)
    requires BroadcastFifo(q) && Enabled(q, e) && (e.BroadcastAccepted? || e.BroadcastPass?)
    ensures BroadcastFifo(Next(q, e))
  {
    match e
    case BroadcastAccepted(p) => SnocSplit(q.accepted, p); Associate2(q.written, q.broadcast, [p]);
    case BroadcastPass(arrivals, n) =>
      HighsConcat(q.accepted, arrivals);
      PassFifo(q.written, q.broadcast, arrivals, q.accepted, n);
  }

  /** Low packets of the main channel leave in the order they were accepted. */
  lemma {:induction false} LowsKeepOrder(q: Queue, es: seq<Event>, r: Queue)
    requires MainFifo(q) && Run(q, es, r)
    requires forall i :: 0 <= i < |es| ==> (es[i].Accepted? && !es[i].p.high) || (es[i].MainPass? && Highs(es[i].arrivals) == [])
    ensures MainFifo(r)
    decreases |es|
  {
    if es != [] {
      MainStepFifo(q, es[0]);
      assert forall i :: 0 <= i < |es[1..]| ==> es[1..][i] == es[i + 1];
      LowsKeepOrder(Next(q, es[0]), es[1..], r);
    }
  }

  /** Broadcasts that went through their channel leave in the order they were accepted. */
  lemma {:induction false} BroadcastsKeepOrder(q: Queue, es: seq<Event>, r: Queue)
    requires BroadcastFifo(q) && Run(q, es, r)
    requires forall i :: 0 <= i < |es| ==> es[i].BroadcastAccepted? || es[i].BroadcastPass?
    ensures BroadcastFifo(r)
    decreases |es|
  {
    if es != [] {
      BroadcastStepFifo(q, es[0]);
      assert forall i :: 0 <= i < |es[1..]| ==> es[1..][i] == es[i + 1];
      BroadcastsKeepOrder(Next(q, es[0]), es[1..], r);
    }
  }

  /** Once drained, everything ever accepted has been written, exactly once. */
  lemma DrainedIsWritten(q: Queue)
    requires Conserved(q)
    ensures var r := Next(q, Drain);
            r.ch == [] && r.broadcast == [] && multiset(r.written) == multiset(r.accepted) && Highs(r.written) == Highs(r.accepted)
  {
    DrainConserves(q);
  }

  lemma SnocSplit(s: seq<Packet>, p: Packet)
    ensures Highs(s + [p]) == Highs(s) + HighPart(p)
    ensures Lows(s + [p]) == Lows(s) + LowPart(p)
  {
    assert (s + [p])[..|s + [p]| - 1] == s;
  }

  lemma Associate2(a: seq<Packet>, b: seq<Packet>, c: seq<Packet>)
    ensures (a + b) + c == a + (b + c)
  {
  }
}
