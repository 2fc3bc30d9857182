/**
 Priority over a whole channel: what leaves when passes of the send loop of
 internal/server/sendqueue.go empty a channel, and when all highs leave first.
 */
module SendPriority {
  import opened Base
  import opened SendQueue

  // ── Where a pass stops ─────────────────────────────────────────

  /** A pass that began with a high packet has met 64 more; one that began with a low has met 64 lows. */
  predicate Full(taken: seq<Packet>)
    requires taken != []
  {
    if taken[0].high then |Highs(taken)| > BATCH else |Lows(taken)| >= BATCH
  }

  /** A pass goes on until its batch is full or the channel is empty, and no further. */
  predicate PassEnds(taken: seq<Packet>, rest: seq<Packet>) {
    && taken != []
    && (rest == [] || Full(taken))
    && (|taken| > 1 ==> !Full(taken[..|taken| - 1]))
  }

  /** Where the pass over a channel stops, from its first `n` packets on. */
  function PassLen(ch: seq<Packet>, n: nat): (r: nat)
    requires 0 < n <= |ch|
    ensures n <= r <= |ch|
    decreases |ch| - n
  {
    if n == |ch| || Full(ch[..n]) then n else PassLen(ch, n + 1)
  }

  lemma FullStays(ch: seq<Packet>, i: nat, j: nat)
    requires 0 < i <= j <= |ch| && Full(ch[..i])
    ensures Full(ch[..j])
  {
    assert ch[..j] == ch[..i] + ch[i..j];
    HighsConcat(ch[..i], ch[i..j]);
  }

  /** PassEnds, by position. */
  predicate StopsAt(ch: seq<Packet>, m: nat)
    requires 0 < m <= |ch|
  {
    (m == |ch| || Full(ch[..m])) && (m > 1 ==> !Full(ch[..m - 1]))
  }

  lemma EndsIffStops(ch: seq<Packet>, m: nat)
    requires 0 < m <= |ch|
    ensures PassEnds(ch[..m], ch[m..]) <==> StopsAt(ch, m)
  {
    if m > 1 { assert ch[..m][..m - 1] == ch[..m - 1]; }
  }

  lemma {:induction false} PassLenStops(ch: seq<Packet>, n: nat)
    requires 0 < n <= |ch| && (n > 1 ==> !Full(ch[..n - 1]))
    ensures StopsAt(ch, PassLen(ch, n))
    decreases |ch| - n
  {
    if n < |ch| && !Full(ch[..n]) { PassLenStops(ch, n + 1); }
  }

  lemma StopsOnce(ch: seq<Packet>, m: nat, r: nat)
    requires 0 < m < r <= |ch| && StopsAt(ch, r)
    ensures !StopsAt(ch, m)
  {
    NotYetFull(ch, m, r);
  }

  /** There is one place where a pass over a channel without arrivals can stop. */
  lemma PassLenUnique(ch: seq<Packet>, m: nat)
    requires 0 < m <= |ch|
    ensures PassEnds(ch[..m], ch[m..]) <==> m == PassLen(ch, 1)
  {
    var r := PassLen(ch, 1);
    PassLenStops(ch, 1);
    EndsIffStops(ch, m);
    if m < r {
      StopsOnce(ch, m, r);
    } else if r < m && StopsAt(ch, m) {
      StopsOnce(ch, r, m);
    }
  }

  lemma NotYetFull(ch: seq<Packet>, m: nat, r: nat)
    requires 0 < m < r <= |ch| && !Full(ch[..r - 1])
    ensures !Full(ch[..m])
  {
    if Full(ch[..m]) { FullStays(ch, m, r - 1); }
  }

  /** What leaves when passes empty the channel and nothing arrives. */
  function DrainOut(ch: seq<Packet>): seq<Packet>
    decreases |ch|
  {
    if ch == [] then []
    else
      var n := PassLen(ch, 1);
      PassOutput(ch[..n]) + DrainOut(ch[n..])
  }

  /** The first pass over a channel, and what it leaves. */
  lemma FirstPass(ch: seq<Packet>) returns (taken: seq<Packet>, rest: seq<Packet>)
    requires ch != []
    ensures ch == taken + rest && PassEnds(taken, rest) && taken[0] == ch[0]
    ensures DrainOut(ch) == PassOutput(taken) + DrainOut(rest)
  {
    var n := PassLen(ch, 1);
    taken, rest := ch[..n], ch[n..];
    PassLenUnique(ch, n);
  }

  // ── Highs first, over sequences ────────────────────────────────

  lemma {:induction false} PartsCount(s: seq<Packet>)
    ensures |Highs(s)| + |Lows(s)| == |s|
  {
    if s != [] { PartsCount(s[..|s| - 1]); }
  }

  lemma {:induction false} NoHighIff(s: seq<Packet>)
    ensures Highs(s) == [] <==> forall i :: 0 <= i < |s| ==> !s[i].high
    ensures Lows(s) == [] <==> forall i :: 0 <= i < |s| ==> s[i].high
  {
    if s != [] {
      var n := |s| - 1;
      NoHighIff(s[..n]);
      assert forall i :: 0 <= i < n ==> s[..n][i] == s[i];
    }
  }

  lemma HighsFirstConcat(a: seq<Packet>, b: seq<Packet>)
    ensures HighsFirst(a + b) <==> HighsFirst(a) && HighsFirst(b) && (Lows(a) == [] || Highs(b) == [])
  {
    NoHighIff(a);
    NoHighIff(b);
    var c := a + b;
    assert forall i :: 0 <= i < |a| ==> c[i] == a[i];
    assert forall i :: 0 <= i < |b| ==> c[|a| + i] == b[i];
    if Lows(a) != [] && Highs(b) != [] {
      var i :| 0 <= i < |a| && !a[i].high;
      var j :| 0 <= j < |b| && b[j].high;
      assert c[|a| + j].high && !c[i].high;
    }
  }

  lemma {:induction false} DrainParts(ch: seq<Packet>)
    ensures Highs(DrainOut(ch)) == Highs(ch) && |DrainOut(ch)| == |ch|
    decreases |ch|
  {
    if ch != [] {
      var taken, rest := FirstPass(ch);
      DrainParts(rest);
      PassSize(taken);
      JoinParts(taken, rest, PassOutput(taken), DrainOut(rest)) by { PassKeepsHighOrder(taken); }
    }
  }

  lemma JoinParts(a: seq<Packet>, b: seq<Packet>, x: seq<Packet>, y: seq<Packet>)
    requires Highs(x) == Highs(a) && Highs(y) == Highs(b)
    ensures Highs(x + y) == Highs(a + b)
  {
    HighsConcat(a, b);
    HighsConcat(x, y);
  }

  lemma PassSize(taken: seq<Packet>)
    requires taken != []
    ensures |PassOutput(taken)| == |taken|
  {
    PassIsPermutation(taken);
    assert |multiset(PassOutput(taken))| == |multiset(taken)|;
  }

  lemma PassLows(taken: seq<Packet>)
    requires taken != []
    ensures Lows(PassOutput(taken)) == [] <==> Lows(taken) == []
  {
    PassSize(taken);
    PassKeepsHighOrder(taken);
    PartsCount(taken);
    PartsCount(PassOutput(taken));
  }

  /** A pass of highs leaves the order to the rest; any other must be in order and leave no high behind. */
  lemma FirstPassDecides(taken: seq<Packet>, rest: seq<Packet>)
    requires taken != []
    ensures HighsFirst(PassOutput(taken) + DrainOut(rest))
            <==> if Lows(taken) == [] then HighsFirst(DrainOut(rest)) else Highs(rest) == [] && InOrder(taken)
  {
    HighsFirstConcat(PassOutput(taken), DrainOut(rest));
    PassLows(taken);
    PassInOrder(taken);
    DrainParts(rest);
    NoHighIff(DrainOut(rest));
  }

  /** Highs leave first within one pass. */
  predicate InOrder(taken: seq<Packet>)
    requires taken != []
  {
    !taken[0].high || |Lows(taken)| <= BATCH || |Highs(taken)| == 1
  }

  lemma PassInOrder(taken: seq<Packet>)
    requires taken != []
    ensures HighsFirst(PassOutput(taken)) <==> InOrder(taken)
  {
    HighsLeaveFirst(taken);
    HeadFirst(taken);
  }

  // ── The channel's content decides ──────────────────────────────

  function LeadingHighs(s: seq<Packet>): (n: nat)
    ensures n <= |s| && (forall i :: 0 <= i < n ==> s[i].high) && (n < |s| ==> !s[n].high)
  {
    HighsFrom(s, 0)
  }

  function HighsFrom(s: seq<Packet>, k: nat): (n: nat)
    requires k <= |s| && forall i :: 0 <= i < k ==> s[i].high
    ensures k <= n <= |s| && (forall i :: 0 <= i < n ==> s[i].high) && (n < |s| ==> !s[n].high)
    decreases |s| - k
  {
    if k == |s| || !s[k].high then k else HighsFrom(s, k + 1)
  }

  function LowsBeforeLastHigh(s: seq<Packet>): nat {
    if s == [] then 0 else if s[|s| - 1].high then |Lows(s)| else LowsBeforeLastHigh(s[..|s| - 1])
  }

  /** What is left when passes of 65 leading highs have gone. */
  function AfterHighPasses(ch: seq<Packet>): seq<Packet> { ch[LeadingHighs(ch) / (BATCH + 1) * (BATCH + 1)..] }

  /** The last high stands before the 64th low; or, after a leading high, there are few enough
      lows for the deferred buffer and few enough highs for one batch. */
  predicate OrderlyRest(r: seq<Packet>) {
    || r == []
    || (!r[0].high && LowsBeforeLastHigh(r) < BATCH)
    || (r[0].high && OrderlyHigh(|Highs(r)| - 1, |Lows(r)|, LowsBeforeLastHigh(r)))
  }

  predicate Orderly(ch: seq<Packet>) { OrderlyRest(AfterHighPasses(ch)) }

  /** `h` further highs, `lows` lows, `before` of them before the last high. */
  predicate OrderlyHigh(h: int, lows: nat, before: nat) {
    h == 0 || (h < BATCH && lows <= BATCH) || (h == BATCH && before <= BATCH)
  }

  lemma {:induction false} LastHighAtMost(s: seq<Packet>)
    ensures LowsBeforeLastHigh(s) <= |Lows(s)|
  {
    if s != [] { LastHighAtMost(s[..|s| - 1]); }
  }

  lemma {:induction false} LastHighInFront(a: seq<Packet>, b: seq<Packet>)
    ensures Highs(b) == [] ==> LowsBeforeLastHigh(a + b) == LowsBeforeLastHigh(a)
    ensures Highs(b) != [] ==> LowsBeforeLastHigh(a + b) >= |Lows(a)|
  {
    if b == [] {
      assert a + b == a;
    } else {
      var n := |b| - 1;
      var c := a + b;
      assert c[..|c| - 1] == a + b[..n] && c[|c| - 1] == b[n];
      LastHighInFront(a, b[..n]);
      HighsConcat(a, b);
    }
  }

  /** Of a pass that began with a low: the last high has fewer than 64 lows before it. */
  lemma LowPassLastHigh(taken: seq<Packet>)
    requires taken != [] && !taken[0].high && (|taken| > 1 ==> !Full(taken[..|taken| - 1]))
    ensures LowsBeforeLastHigh(taken) < BATCH
  {
    var init := taken[..|taken| - 1];
    if |taken| > 1 { LastHighAtMost(init); } else { assert init == []; }
  }

  lemma LowStart(taken: seq<Packet>, rest: seq<Packet>)
    requires PassEnds(taken, rest) && !taken[0].high
    ensures Highs(rest) == [] <==> LowsBeforeLastHigh(taken + rest) < BATCH
  {
    LowPassLastHigh(taken);
    LastHighInFront(taken, rest);
  }

  lemma {:induction false} AllHighDrains(ch: seq<Packet>)
    requires Lows(ch) == []
    ensures HighsFirst(DrainOut(ch)) && Orderly(ch)
  {
    DrainParts(ch);
    PartsCount(ch);
    PartsCount(DrainOut(ch));
    NoHighIff(DrainOut(ch));
    NoHighIff(ch);
    var r := AfterHighPasses(ch);
    assert LeadingHighs(ch) == |ch|;
    assert |r| <= BATCH;
    NoHighIff(r);
    PartsCount(r);
  }

  lemma LeadUnique(s: seq<Packet>, n: nat)
    requires n <= |s| && (forall i :: 0 <= i < n ==> s[i].high) && (n < |s| ==> !s[n].high)
    ensures LeadingHighs(s) == n
  {
  }

  lemma LeadingHighsConcat(a: seq<Packet>, b: seq<Packet>)
    requires Lows(a) == []
    ensures LeadingHighs(a + b) == |a| + LeadingHighs(b)
  {
    var n := LeadingHighs(b);
    AllHighThen(a, b, n) by { NoHighIff(a); }
    LeadUnique(a + b, |a| + n);
  }

  lemma AllHighThen(a: seq<Packet>, b: seq<Packet>, n: nat)
    requires n <= |b| && (forall i :: 0 <= i < |a| ==> a[i].high) && (forall i :: 0 <= i < n ==> b[i].high) && (n < |b| ==> !b[n].high)
    ensures var c := a + b;
            (forall i :: 0 <= i < |a| + n ==> c[i].high) && (|a| + n < |c| ==> !c[|a| + n].high)
  {
  }

  /** A first pass of 65 highs changes nothing about the rest. */
  lemma HighPassSkips(a: seq<Packet>, b: seq<Packet>)
    requires Lows(a) == [] && |a| == BATCH + 1
    ensures AfterHighPasses(a + b) == AfterHighPasses(b)
  {
    LeadingHighsConcat(a, b);
    SkipAhead(a, b, LeadingHighs(b));
  }

  lemma SkipAhead(a: seq<Packet>, b: seq<Packet>, lead: nat)
    requires |a| == BATCH + 1 && lead <= |b|
    ensures (a + b)[(|a| + lead) / (BATCH + 1) * (BATCH + 1)..] == b[lead / (BATCH + 1) * (BATCH + 1)..]
  {
    var n := lead / (BATCH + 1) * (BATCH + 1);
    assert (|a| + lead) / (BATCH + 1) == lead / (BATCH + 1) + 1;
    assert (a + b)[|a| + n..] == b[n..];
  }

  /** More than 64 leading highs fill a pass by themselves. */
  lemma MixedLeads(taken: seq<Packet>, rest: seq<Packet>)
    requires PassEnds(taken, rest) && taken[0].high && Lows(taken) != []
    ensures AfterHighPasses(taken + rest) == taken + rest
  {
    if LeadingHighs(taken + rest) > BATCH { TooManyLeading(taken, rest); }
    ShortLead(taken + rest);
  }

  lemma ShortLead(ch: seq<Packet>)
    ensures LeadingHighs(ch) <= BATCH ==> AfterHighPasses(ch) == ch
  {
  }

  lemma TooManyLeading(taken: seq<Packet>, rest: seq<Packet>)
    requires PassEnds(taken, rest) && taken[0].high && LeadingHighs(taken + rest) > BATCH
    ensures Lows(taken) == []
  {
    LeadInTaken(taken, rest);
    if |taken| > BATCH + 1 {
      LongerIsFull(taken);
    } else {
      NoHighIff(taken);
    }
  }

  lemma LeadInTaken(taken: seq<Packet>, rest: seq<Packet>)
    requires LeadingHighs(taken + rest) > BATCH
    ensures forall i :: 0 <= i < |taken| && i <= BATCH ==> taken[i].high
  {
    var ch := taken + rest;
    assert forall i :: 0 <= i < |taken| ==> taken[i] == ch[i];
  }

  lemma LongerIsFull(taken: seq<Packet>)
    requires |taken| > BATCH + 1 && forall i :: 0 <= i <= BATCH ==> taken[i].high
    ensures Full(taken[..|taken| - 1])
  {
    var first := taken[..BATCH + 1];
    NoHighIff(first);
    PartsCount(first);
    FullStays(taken, BATCH + 1, |taken| - 1);
  }

  lemma MixedCounts(taken: seq<Packet>, rest: seq<Packet>)
    requires PassEnds(taken, rest) && taken[0].high
    ensures var ch := taken + rest;
            Highs(rest) == [] && InOrder(taken) <==> OrderlyHigh(|Highs(ch)| - 1, |Lows(ch)|, LowsBeforeLastHigh(ch))
  {
    if Full(taken) { FullCounts(taken, rest); } else { assert taken + rest == taken; }
  }

  lemma FullCounts(taken: seq<Packet>, rest: seq<Packet>)
    requires PassEnds(taken, rest) && taken[0].high && Full(taken)
    ensures var ch := taken + rest;
            Highs(rest) == [] && InOrder(taken) <==> OrderlyHigh(|Highs(ch)| - 1, |Lows(ch)|, LowsBeforeLastHigh(ch))
  {
    PartsCount(taken);
    FullPass(taken, taken[..|taken| - 1]);
    LastHighInFront(taken, rest);
    HighsConcat(taken, rest);
  }

  /** A pass that filled its batch ended with the high that filled it. */
  lemma FullPass(taken: seq<Packet>, init: seq<Packet>)
    requires |taken| > 1 && init == taken[..|taken| - 1] && taken[0].high && Full(taken) && !Full(init)
    ensures |Highs(taken)| == BATCH + 1 && LowsBeforeLastHigh(taken) == |Lows(taken)|
  {
  }

  lemma MixedDecides(taken: seq<Packet>, rest: seq<Packet>)
    requires PassEnds(taken, rest) && Lows(taken) != []
    ensures HighsFirst(PassOutput(taken) + DrainOut(rest)) <==> Orderly(taken + rest)
  {
    FirstPassDecides(taken, rest);
    if taken[0].high { MixedOrderly(taken, rest); } else { LowOrderly(taken, rest); }
  }

  lemma MixedOrderly(taken: seq<Packet>, rest: seq<Packet>)
    requires PassEnds(taken, rest) && Lows(taken) != [] && taken[0].high
    ensures Orderly(taken + rest) <==> Highs(rest) == [] && InOrder(taken)
  {
    MixedLeads(taken, rest);
    MixedCounts(taken, rest);
  }

  lemma LowOrderly(taken: seq<Packet>, rest: seq<Packet>)
    requires PassEnds(taken, rest) && !taken[0].high
    ensures Orderly(taken + rest) <==> Highs(rest) == [] && InOrder(taken)
  {
    ShortLead(taken + rest);
    LowStart(taken, rest);
  }

  /** Main theorem: passes without arrivals send every high before every low exactly when the channel is orderly. */
  lemma {:induction false} HighsLeaveFirstIff(ch: seq<Packet>)
    ensures HighsFirst(DrainOut(ch)) <==> Orderly(ch)
    decreases |ch|
  {
    if ch != [] {
      var taken, rest := FirstPass(ch);
      if Lows(taken) != [] {
        MixedDecides(taken, rest);
      } else if rest == [] {
        assert ch == taken;
        AllHighDrains(ch);
      } else {
        NoHighIff(taken);
        FullHighPass(taken, rest);
        HighPassSkips(taken, rest);
        FirstPassDecides(taken, rest);
        HighsLeaveFirstIff(rest);
      }
    }
  }

  lemma FullHighPass(taken: seq<Packet>, rest: seq<Packet>)
    requires PassEnds(taken, rest) && rest != [] && taken[0].high && Lows(taken) == []
    ensures |taken| == BATCH + 1
  {
    PartsCount(taken);
    FullPass(taken, taken[..|taken| - 1]);
  }

  /** 64 lows in front of one high: the first pass leaves the high behind. */
  lemma LowsBeforeHigh(low: Packet, high: Packet)
    requires !low.high && high.high
    ensures !HighsFirst(DrainOut(seq(BATCH, _ => low) + [high]))
  {
    var lows := seq(BATCH, _ => low);
    var ch := lows + [high];
    NoHighIff(lows);
    PartsCount(lows);
    HighsConcat(lows, [high]);
    assert [high][..0] == [];
    assert LowsBeforeLastHigh(ch) == BATCH by { assert ch[|ch| - 1] == high; }
    HighsLeaveFirstIff(ch);
  }
}
