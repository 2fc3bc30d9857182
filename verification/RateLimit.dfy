/**
 Token buckets: the server's per-client bandwidth limit
 (internal/server/tokenbucket.go) and the client's send limiter
 (internal/client/ratelimit.go), over exact reals for floating point.
 */
module RateLimit {
  import opened Base

  /** A call asking for `size` bytes at time `now`, in seconds. */
  datatype Call = Call(now: real, size: nat)

  function Positive(x: real): real { if x < 0.0 then 0.0 else x }

  /** How far the clock moved forward from `t` over some calls; steps back count nothing. */
  function Forward(t: real, cs: seq<Call>): (r: real)
    ensures r >= 0.0
    decreases |cs|
  {
    if cs == [] then 0.0 else Positive(cs[0].now - t) + Forward(cs[0].now, cs[1..])
  }

  predicate Nondecreasing(t: real, cs: seq<Call>)
    decreases |cs|
  {
    cs == [] || (t <= cs[0].now && Nondecreasing(cs[0].now, cs[1..]))
  }

  function LastTime(t: real, cs: seq<Call>): real { if cs == [] then t else cs[|cs| - 1].now }

  /** Under a clock that never goes back it is simply the elapsed time. */
  lemma {:induction false} ForwardIsElapsed(t: real, cs: seq<Call>)
    requires Nondecreasing(t, cs)
    ensures Forward(t, cs) == LastTime(t, cs) - t
    decreases |cs|
  {
    if cs != [] { ForwardIsElapsed(cs[0].now, cs[1..]); }
  }

  // ── The server's bucket ────────────────────────────────────────

  /** `earn` says how many tokens some seconds are worth. */
  datatype Limit = Limit(earn: real -> real, burst: real)

  function AtRate(rate: real): real -> real { x => rate * x }

  function PerSecond(rate: real, burst: real): Limit { Limit(AtRate(rate), burst) }

  /** Asked for wherever two spans of time are added up. */
  predicate Joined(a: real, b: real) { true }

  /** Two spans together are worth what they are worth apart. */
  ghost predicate Additive(f: real -> real) {
    forall a, b {:trigger Joined(a, b)} :: f(a + b) == f(a) + f(b)
  }

  /** Longer spans are worth as much more as they are longer. */
  ghost predicate Linear(f: real -> real) { (forall x :: x >= 0.0 ==> f(x) >= 0.0) && Additive(f) }

  ghost predicate LimitOk(l: Limit) { l.burst >= 0.0 && Linear(l.earn) }

  lemma AddUp(f: real -> real, a: real, b: real)
    requires Additive(f)
    ensures f(a + b) == f(a) + f(b)
  {
    assert Joined(a, b);
  }

  lemma Monotone(f: real -> real, a: real, b: real)
    requires Linear(f) && a <= b
    ensures f(a) <= f(b)
  {
    AddUp(f, a, b - a);
    assert a + (b - a) == b;
  }

  lemma NothingEarned(f: real -> real)
    requires Linear(f)
    ensures f(0.0) == 0.0
  {
    AddUp(f, 0.0, 0.0);
  }

  lemma ProductSign(x: real, y: real)
    requires x >= 0.0 && y >= 0.0
    ensures x * y >= 0.0
  {
  }

  lemma Distribute(x: real, a: real, b: real)
    ensures x * (a + b) == x * a + x * b
  {
  }

  /** A fixed rate is linear. */
  lemma AtRateIsLinear(rate: real)
    requires rate >= 0.0
    ensures Linear(AtRate(rate))
  {
    var f := AtRate(rate);
    forall x | x >= 0.0 ensures f(x) >= 0.0 { ProductSign(rate, x); }
    forall a, b ensures f(a + b) == f(a) + f(b) { Distribute(rate, a, b); }
  }

  datatype Bucket = Bucket(tokens: real, last: real)

  predicate BucketOk(l: Limit, b: Bucket) { 0.0 <= b.tokens <= l.burst }

  function Refilled(l: Limit, b: Bucket, now: real): Bucket {
    var t := b.tokens + l.earn(Positive(now - b.last));
    Bucket(if t > l.burst then l.burst else t, now)
  }

  predicate Allows(l: Limit, b: Bucket, c: Call) { Refilled(l, b, c.now).tokens >= c.size as real }

  function After(l: Limit, b: Bucket, c: Call): Bucket {
    var r := Refilled(l, b, c.now);
    if Allows(l, b, c) then r.(tokens := r.tokens - c.size as real) else r
  }

  function RunBucket(l: Limit, b: Bucket, cs: seq<Call>): Bucket
    decreases |cs|
  {
    if cs == [] then b else RunBucket(l, After(l, b, cs[0]), cs[1..])
  }

  /** Bytes let through over some calls. */
  function Admitted(l: Limit, b: Bucket, cs: seq<Call>): nat
    decreases |cs|
  {
    if cs == [] then 0
    else (if Allows(l, b, cs[0]) then cs[0].size else 0) + Admitted(l, After(l, b, cs[0]), cs[1..])
  }

  /** Bytes admitted and tokens left never exceed tokens held plus what the clock earned. */
  lemma {:induction false} Budget(l: Limit, b: Bucket, cs: seq<Call>)
    requires LimitOk(l) && BucketOk(l, b)
    ensures BucketOk(l, RunBucket(l, b, cs))
    ensures Admitted(l, b, cs) as real + RunBucket(l, b, cs).tokens <= b.tokens + l.earn(Forward(b.last, cs))
    decreases |cs|
  {
    if cs == [] {
      NothingEarned(l.earn);
    } else {
      var step := Positive(cs[0].now - b.last);
      assert l.earn(step) >= 0.0;
      Budget(l, After(l, b, cs[0]), cs[1..]);
      AddUp(l.earn, step, Forward(cs[0].now, cs[1..]));
    }
  }

  /** Main theorem: from any call to any later one, at most the burst and what the time between
      them earns, at any linear rate and however the bucket was used before; a clock that steps
      back counts only its forward moves. */
  lemma WindowBound(l: Limit, start: real, before: seq<Call>, window: seq<Call>)
    requires LimitOk(l) && window != []
    ensures var b := RunBucket(l, Bucket(l.burst, start), before);
            Admitted(l, b, window) as real <= l.burst + l.earn(Forward(window[0].now, window[1..]))
  {
    var b := RunBucket(l, Bucket(l.burst, start), before);
    Budget(l, Bucket(l.burst, start), before);
    assert l.earn(Positive(window[0].now - b.last)) >= 0.0;
    Budget(l, After(l, b, window[0]), window[1..]);
  }

  lemma WindowBoundElapsed(l: Limit, start: real, before: seq<Call>, window: seq<Call>)
    requires LimitOk(l) && window != [] && Nondecreasing(window[0].now, window[1..])
    ensures var b := RunBucket(l, Bucket(l.burst, start), before);
            Admitted(l, b, window) as real <= l.burst + l.earn(LastTime(window[0].now, window[1..]) - window[0].now)
  {
    WindowBound(l, start, before, window);
    ForwardIsElapsed(window[0].now, window[1..]);
  }

  /** The bucket the server makes: bytes within burst + rate * elapsed. */
  lemma ServerBound(rate: real, burst: real, start: real, before: seq<Call>, window: seq<Call>)
    requires rate >= 0.0 && burst >= 0.0 && window != [] && Nondecreasing(window[0].now, window[1..])
    ensures var l := PerSecond(rate, burst);
            var b := RunBucket(l, Bucket(burst, start), before);
            Admitted(l, b, window) as real <= burst + AtRate(rate)(LastTime(window[0].now, window[1..]) - window[0].now)
  {
    AtRateIsLinear(rate);
    WindowBoundElapsed(PerSecond(rate, burst), start, before, window);
  }

  /** A call is refused only if it asks for more than the burst, or than the tokens held and the time since are worth. */
  lemma RefusedOnlyIf(l: Limit, b: Bucket, c: Call)
    requires !Allows(l, b, c)
    ensures c.size as real > l.burst || c.size as real > b.tokens + l.earn(Positive(c.now - b.last))
  {
  }

  /** Bytes let through from call `i` on, over a run from a full bucket. */
  function AdmittedFrom(l: Limit, start: real, cs: seq<Call>, i: nat): nat
    requires i <= |cs|
  {
    Admitted(l, RunBucket(l, Bucket(l.burst, start), cs[..i]), cs[i..])
  }

  /** `x` more tokens at time `t` exceed no window: neither from the creation nor from any call. */
  ghost predicate FitsAll(l: Limit, start: real, cs: seq<Call>, t: real, x: real) {
    FitsCreation(l, start, cs, t, x) && FitsCalls(l, start, cs, t, x)
  }

  ghost predicate FitsCreation(l: Limit, start: real, cs: seq<Call>, t: real, x: real) {
    x + AdmittedFrom(l, start, cs, 0) as real <= l.burst + l.earn(t - start)
  }

  ghost predicate FitsCalls(l: Limit, start: real, cs: seq<Call>, t: real, x: real) {
    forall i :: 0 <= i < |cs| ==> FitsFrom(l, start, cs, t, x, i)
  }

  ghost predicate FitsFrom(l: Limit, start: real, cs: seq<Call>, t: real, x: real, i: nat)
    requires i < |cs|
  {
    x + AdmittedFrom(l, start, cs, i) as real <= l.burst + l.earn(t - cs[i].now)
  }

  lemma {:induction false} RunSnoc(l: Limit, b: Bucket, cs: seq<Call>, c: Call)
    ensures var u := RunBucket(l, b, cs);
            && RunBucket(l, b, cs + [c]) == After(l, u, c)
            && Admitted(l, b, cs + [c]) == Admitted(l, b, cs) + if Allows(l, u, c) then c.size else 0
    decreases |cs|
  {
    if cs == [] {
      assert [] + [c] == [c] && [c][1..] == [];
      assert RunBucket(l, b, [c]) == RunBucket(l, After(l, b, c), []);
      assert Admitted(l, b, [c]) == (if Allows(l, b, c) then c.size else 0) + Admitted(l, After(l, b, c), []);
    } else {
      assert (cs + [c])[0] == cs[0] && (cs + [c])[1..] == cs[1..] + [c];
      RunSnoc(l, After(l, b, cs[0]), cs[1..], c);
    }
  }

  /** One call more adds what it was let through to every window. */
  lemma AdmittedFromSnoc(l: Limit, start: real, cs: seq<Call>, c: Call, i: nat)
    requires i <= |cs|
    ensures AdmittedFrom(l, start, cs + [c], i)
         == AdmittedFrom(l, start, cs, i) + if Allows(l, RunBucket(l, Bucket(l.burst, start), cs), c) then c.size else 0
  {
    var full := Bucket(l.burst, start);
    assert (cs + [c])[..i] == cs[..i] && (cs + [c])[i..] == cs[i..] + [c];
    RunSnoc(l, RunBucket(l, full, cs[..i]), cs[i..], c);
    RunSplit(l, full, cs, i);
  }

  lemma {:induction false} RunSplit(l: Limit, b: Bucket, cs: seq<Call>, i: nat)
    requires i <= |cs|
    ensures RunBucket(l, b, cs) == RunBucket(l, RunBucket(l, b, cs[..i]), cs[i..])
    decreases i
  {
    if i == 0 {
      assert cs[..0] == [] && cs[0..] == cs;
    } else {
      RunSplit(l, After(l, b, cs[0]), cs[1..], i - 1);
      assert cs[..i][1..] == cs[1..][..i - 1] && cs[1..][i - 1..] == cs[i..];
    }
  }

  predicate Ordered(start: real, cs: seq<Call>) {
    (forall i :: 0 <= i < |cs| ==> start <= cs[i].now) && forall i, j :: 0 <= i < j < |cs| ==> cs[i].now <= cs[j].now
  }

  /** The tokens available at `t` after `cs` are exactly what fits all windows, up to the burst. */
  ghost predicate Fitted(l: Limit, start: real, cs: seq<Call>, t: real, x: real) {
    var u := RunBucket(l, Bucket(l.burst, start), cs);
    x <= u.tokens + l.earn(t - u.last) <==> FitsAll(l, start, cs, t, x)
  }

  lemma FittedAtStart(l: Limit, start: real, t: real, x: real)
    ensures Fitted(l, start, [], t, x)
  {
  }

  lemma FittedAfter(l: Limit, start: real, init: seq<Call>, d: Call, t: real, x: real)
    requires Additive(l.earn) && RunBucket(l, Bucket(l.burst, start), init).last <= d.now
    requires var a := if Allows(l, RunBucket(l, Bucket(l.burst, start), init), d) then d.size else 0;
             Fitted(l, start, init, d.now, x + a as real - l.earn(t - d.now))
    ensures Fitted(l, start, init + [d], t, x) && RunBucket(l, Bucket(l.burst, start), init + [d]).last == d.now
  {
    var u := RunBucket(l, Bucket(l.burst, start), init);
    var a := if Allows(l, u, d) then d.size else 0;
    RunSnoc(l, Bucket(l.burst, start), init, d);
    AfterTokens(l, u, d, t, x);
    LastWindow(l, start, init, d, t, x, a);
    WindowsShift(l, start, init, d, t, x, x + a as real - l.earn(t - d.now), a);
  }

  lemma {:induction false} TokensFitAll(l: Limit, start: real, cs: seq<Call>, t: real, x: real)
    requires Additive(l.earn) && Ordered(start, cs) && LastTime(start, cs) <= t
    ensures RunBucket(l, Bucket(l.burst, start), cs).last == LastTime(start, cs) && Fitted(l, start, cs, t, x)
    decreases |cs|
  {
    if cs == [] {
      FittedAtStart(l, start, t, x);
    } else {
      var init, d := cs[..|cs| - 1], cs[|cs| - 1];
      assert cs == init + [d];
      OrderedPrefix(start, init, d);
      var a := if Allows(l, RunBucket(l, Bucket(l.burst, start), init), d) then d.size else 0;
      TokensFitAll(l, start, init, d.now, x + a as real - l.earn(t - d.now));
      FittedAfter(l, start, init, d, t, x);
    }
  }

  lemma OrderedPrefix(start: real, init: seq<Call>, d: Call)
    requires Ordered(start, init + [d])
    ensures Ordered(start, init) && LastTime(start, init) <= d.now
  {
    var cs := init + [d];
    assert cs[|init|] == d && forall i :: 0 <= i < |init| ==> init[i] == cs[i];
  }

  /** What one call leaves, at a later time. */
  lemma AfterTokens(l: Limit, u: Bucket, d: Call, t: real, x: real)
    requires u.last <= d.now
    ensures var a := if Allows(l, u, d) then d.size else 0;
            var later := l.earn(t - d.now);
            && After(l, u, d).last == d.now
            && (x <= After(l, u, d).tokens + later
                <==> x + a as real - later <= u.tokens + l.earn(d.now - u.last) && x + a as real <= l.burst + later)
  {
  }

  lemma LastWindow(l: Limit, start: real, init: seq<Call>, d: Call, t: real, x: real, a: nat)
    requires a == if Allows(l, RunBucket(l, Bucket(l.burst, start), init), d) then d.size else 0
    ensures FitsFrom(l, start, init + [d], t, x, |init|) <==> x + a as real <= l.burst + l.earn(t - d.now)
  {
    AdmittedFromSnoc(l, start, init, d, |init|);
    assert init[|init|..] == [];
  }

  lemma Gap(f: real -> real, a: real, b: real, c: real)
    requires Additive(f)
    ensures f(c - a) == f(b - a) + f(c - b)
  {
    AddUp(f, b - a, c - b);
    assert (b - a) + (c - b) == c - a;
  }

  lemma WindowShift(l: Limit, start: real, init: seq<Call>, d: Call, t: real, x: real, y: real, a: nat, i: nat)
    requires i < |init| && y == x + a as real - l.earn(t - d.now)
    requires l.earn(t - init[i].now) == l.earn(d.now - init[i].now) + l.earn(t - d.now)
    requires a == if Allows(l, RunBucket(l, Bucket(l.burst, start), init), d) then d.size else 0
    ensures FitsFrom(l, start, init + [d], t, x, i) <==> FitsFrom(l, start, init, d.now, y, i)
  {
    AdmittedFromSnoc(l, start, init, d, i);
    assert (init + [d])[i] == init[i];
  }

  lemma OneWindow(l: Limit, start: real, init: seq<Call>, d: Call, t: real, x: real, y: real, a: nat, i: nat)
    requires i < |init| && Additive(l.earn) && y == x + a as real - l.earn(t - d.now)
    requires a == if Allows(l, RunBucket(l, Bucket(l.burst, start), init), d) then d.size else 0
    ensures FitsFrom(l, start, init + [d], t, x, i) <==> FitsFrom(l, start, init, d.now, y, i)
  {
    Gap(l.earn, init[i].now, d.now, t);
    WindowShift(l, start, init, d, t, x, y, a, i);
  }

  lemma CreationShift(l: Limit, start: real, init: seq<Call>, d: Call, t: real, x: real, y: real, a: nat)
    requires Additive(l.earn) && y == x + a as real - l.earn(t - d.now)
    requires a == if Allows(l, RunBucket(l, Bucket(l.burst, start), init), d) then d.size else 0
    ensures FitsCreation(l, start, init + [d], t, x) <==> FitsCreation(l, start, init, d.now, y)
  {
    AdmittedFromSnoc(l, start, init, d, 0);
    Gap(l.earn, start, d.now, t);
  }

  /** Windows over one call more at a later time, in terms of the windows before it. */
  lemma WindowsShift(l: Limit, start: real, init: seq<Call>, d: Call, t: real, x: real, y: real, a: nat)
    requires Additive(l.earn) && y == x + a as real - l.earn(t - d.now)
    requires a == if Allows(l, RunBucket(l, Bucket(l.burst, start), init), d) then d.size else 0
    ensures FitsAll(l, start, init + [d], t, x) <==> FitsAll(l, start, init, d.now, y) && FitsFrom(l, start, init + [d], t, x, |init|)
  {
    CreationShift(l, start, init, d, t, x, y, a);
    CallsShift(l, start, init, d, t, x, y, a);
  }

  lemma CallsShift(l: Limit, start: real, init: seq<Call>, d: Call, t: real, x: real, y: real, a: nat)
    requires Additive(l.earn) && y == x + a as real - l.earn(t - d.now)
    requires a == if Allows(l, RunBucket(l, Bucket(l.burst, start), init), d) then d.size else 0
    ensures FitsCalls(l, start, init + [d], t, x) <==> FitsCalls(l, start, init, d.now, y) && FitsFrom(l, start, init + [d], t, x, |init|)
  {
    forall i | 0 <= i < |init| ensures FitsFrom(l, start, init + [d], t, x, i) <==> FitsFrom(l, start, init, d.now, y, i) {
      OneWindow(l, start, init, d, t, x, y, a, i);
    }
    SplitCalls(l, start, init, d, t, x, d.now, y);
  }

  lemma SplitCalls(l: Limit, start: real, init: seq<Call>, d: Call, t: real, x: real, t': real, y: real)
    requires forall i :: 0 <= i < |init| ==> (FitsFrom(l, start, init + [d], t, x, i) <==> FitsFrom(l, start, init, t', y, i))
    ensures FitsCalls(l, start, init + [d], t, x) <==> FitsCalls(l, start, init, t', y) && FitsFrom(l, start, init + [d], t, x, |init|)
  {
    if FitsCalls(l, start, init + [d], t, x) {
      forall i | 0 <= i < |init| ensures FitsFrom(l, start, init, t', y, i) { assert FitsFrom(l, start, init + [d], t, x, i); }
      assert FitsFrom(l, start, init + [d], t, x, |init|);
    }
  }

  /** Main theorem: under a clock that does not go back, a call passes exactly when it is within the burst
      and, together with what was let through since, within every window from the creation and from
      every earlier call. */
  lemma PassesIffFits(l: Limit, start: real, cs: seq<Call>, c: Call)
    requires Additive(l.earn) && Ordered(start, cs + [c])
    ensures Allows(l, RunBucket(l, Bucket(l.burst, start), cs), c)
            <==> c.size as real <= l.burst && FitsAll(l, start, cs, c.now, c.size as real)
  {
    var all := cs + [c];
    assert all[|cs|] == c && forall i :: 0 <= i < |cs| ==> all[i] == cs[i];
    TokensFitAll(l, start, cs, c.now, c.size as real);
  }

  /** The bucket the server makes, call by call. */
  lemma ServerPassesIff(rate: real, burst: real, start: real, cs: seq<Call>, c: Call)
    requires rate >= 0.0 && Ordered(start, cs + [c])
    ensures var l := PerSecond(rate, burst);
            Allows(l, RunBucket(l, Bucket(burst, start), cs), c)
            <==> c.size as real <= burst && FitsAll(l, start, cs, c.now, c.size as real)
  {
    AtRateIsLinear(rate);
    PassesIffFits(PerSecond(rate, burst), start, cs, c);
  }

  /** Long enough without a call, and everything up to the burst passes again. */
  lemma QuietRefills(rate: real, burst: real, b: Bucket, c: Call)
    requires b.tokens >= 0.0 && c.now >= b.last && rate * (c.now - b.last) >= burst
    ensures Allows(PerSecond(rate, burst), b, c) <==> c.size as real <= burst
  {
    var l := PerSecond(rate, burst);
    assert l.earn(Positive(c.now - b.last)) == rate * (c.now - b.last);
  }

  class TokenBucket {
    const rate: real
    const maxBurst: real
    var tokens: real
    var lastTime: real

    ghost function Model(): Bucket
      reads this
    {
      Bucket(tokens, lastTime)
    }

    constructor (rate: real, burst: real, now: real)
      ensures this.rate == rate && maxBurst == burst && Model() == Bucket(burst, now)
    {
      this.rate, maxBurst, tokens, lastTime := rate, burst, burst, now;
    }

    method Refill(now: real)
      modifies this
      ensures Model() == Refilled(PerSecond(rate, maxBurst), old(Model()), now)
    {
      var elapsed := now - lastTime;
      lastTime := now;
      if elapsed < 0.0 { elapsed := 0.0; }
      tokens := tokens + rate * elapsed;
      if tokens > maxBurst { tokens := maxBurst; }
    }

    method Allow(now: real, size: nat) returns (ok: bool)
      modifies this
      ensures ok <==> Allows(PerSecond(rate, maxBurst), old(Model()), Call(now, size))
      ensures Model() == After(PerSecond(rate, maxBurst), old(Model()), Call(now, size))
    {
      Refill(now);
      if tokens >= size as real {
        tokens := tokens - size as real;
        return true;
      }
      ok := false;
    }
  }

  // ── The client's limiter ───────────────────────────────────────

  /** `earn` says how many whole tokens some seconds are worth. */
  datatype SendLimit = SendLimit(earn: real -> nat, burst: nat)

  /** A worth, cut to an integer. */
  function Whole(x: real): (n: nat)
    ensures x >= 0.0 ==> n as real <= x < n as real + 1.0
  {
    if x < 0.0 then 0 else x.Floor
  }

  function WholePerSecond(rate: nat, burst: nat): SendLimit { SendLimit(x => Whole(AtRate(rate as real)(x)), burst) }

  /** At most what `f` says, and less than one token short of it. */
  ghost predicate CutFrom(l: SendLimit, f: real -> real) {
    Linear(f) && forall x :: x >= 0.0 ==> l.earn(x) as real <= f(x) < l.earn(x) as real + 1.0
  }

  lemma WholePerSecondCut(rate: nat, burst: nat)
    ensures CutFrom(WholePerSecond(rate, burst), AtRate(rate as real))
  {
    AtRateIsLinear(rate as real);
  }

  datatype Limiter = Limiter(tokens: nat, last: real)

  /** Elapsed time between zero and one second. */
  function Clipped(x: real): (r: real)
    ensures 0.0 <= r <= 1.0 && r <= Positive(x)
  {
    if x < 0.0 then 0.0 else if x > 1.0 then 1.0 else x
  }

  /** Enough tokens in hand: no refill and no new timestamp. */
  predicate Fast(b: Limiter, c: Call) { b.tokens >= c.size }

  function SlowTokens(l: SendLimit, b: Limiter, now: real): nat {
    var t := b.tokens + l.earn(Clipped(now - b.last));
    if t > l.burst then l.burst else t
  }

  predicate Passes(l: SendLimit, b: Limiter, c: Call) { Fast(b, c) || SlowTokens(l, b, c.now) >= c.size }

  function AfterSend(l: SendLimit, b: Limiter, c: Call): Limiter {
    if Fast(b, c) then b.(tokens := b.tokens - c.size)
    else
      var t := SlowTokens(l, b, c.now);
      Limiter(if t >= c.size then t - c.size else t, c.now)
  }

  function RunLimiter(l: SendLimit, b: Limiter, cs: seq<Call>): Limiter
    decreases |cs|
  {
    if cs == [] then b else RunLimiter(l, AfterSend(l, b, cs[0]), cs[1..])
  }

  function Sent(l: SendLimit, b: Limiter, cs: seq<Call>): nat
    decreases |cs|
  {
    if cs == [] then 0
    else (if Passes(l, b, cs[0]) then cs[0].size else 0) + Sent(l, AfterSend(l, b, cs[0]), cs[1..])
  }

  /** Tokens, and seconds, that the slow path turned into tokens. */
  function SlowGains(l: SendLimit, b: Limiter, cs: seq<Call>): nat
    decreases |cs|
  {
    if cs == [] then 0
    else (if Fast(b, cs[0]) then 0 else l.earn(Clipped(cs[0].now - b.last))) + SlowGains(l, AfterSend(l, b, cs[0]), cs[1..])
  }

  function SlowTime(l: SendLimit, b: Limiter, cs: seq<Call>): (r: real)
    ensures r >= 0.0
    decreases |cs|
  {
    if cs == [] then 0.0
    else (if Fast(b, cs[0]) then 0.0 else Clipped(cs[0].now - b.last)) + SlowTime(l, AfterSend(l, b, cs[0]), cs[1..])
  }

  /** Bytes sent and tokens left never exceed tokens held plus tokens earned. */
  lemma {:induction false} SendBudget(l: SendLimit, b: Limiter, cs: seq<Call>)
    ensures Sent(l, b, cs) + RunLimiter(l, b, cs).tokens <= b.tokens + SlowGains(l, b, cs)
    decreases |cs|
  {
    if cs != [] { SendBudget(l, AfterSend(l, b, cs[0]), cs[1..]); }
  }

  /** No second is counted twice: the refills cover at most the time already owed at `t` and the forward moves after. */
  lemma {:induction false} SlowTimeBound(l: SendLimit, b: Limiter, cs: seq<Call>, t: real, gap: real)
    requires Clipped(t - b.last) <= gap
    ensures SlowTime(l, b, cs) <= gap + Forward(t, cs)
    decreases |cs|
  {
    if cs != [] {
      var now := cs[0].now;
      SlowTimeBound(l, AfterSend(l, b, cs[0]), cs[1..], now, if Fast(b, cs[0]) then gap + Positive(now - t) else 0.0);
    }
  }

  /** From any moment on they cover at most one second more than the clock then moves forward. */
  lemma {:induction false} SlowTimeWindow(l: SendLimit, b: Limiter, cs: seq<Call>, t: real)
    ensures SlowTime(l, b, cs) <= 1.0 + Forward(t, cs)
    decreases |cs|
  {
    if cs != [] {
      if Fast(b, cs[0]) {
        SlowTimeWindow(l, AfterSend(l, b, cs[0]), cs[1..], cs[0].now);
      } else {
        SlowTimeBound(l, AfterSend(l, b, cs[0]), cs[1..], cs[0].now, 0.0);
      }
    }
  }

  lemma {:induction false} SlowGainsBound(l: SendLimit, f: real -> real, b: Limiter, cs: seq<Call>)
    requires CutFrom(l, f)
    ensures SlowGains(l, b, cs) as real <= f(SlowTime(l, b, cs))
    decreases |cs|
  {
    if cs == [] {
      NothingEarned(f);
    } else {
      var a, e := AfterSend(l, b, cs[0]), Clipped(cs[0].now - b.last);
      SlowGainsBound(l, f, a, cs[1..]);
      AddUp(f, e, SlowTime(l, a, cs[1..]));
    }
  }

  /** Main theorem: since its creation the limiter sends at most the burst and what the time since is worth. */
  lemma SentSinceCreation(l: SendLimit, f: real -> real, start: real, cs: seq<Call>)
    requires CutFrom(l, f) && Nondecreasing(start, cs)
    ensures Sent(l, Limiter(l.burst, start), cs) as real <= l.burst as real + f(LastTime(start, cs) - start)
  {
    RefilledWindow(l, f, Limiter(l.burst, start), start, cs);
  }

  /** The limiter the client makes: bytes within burst + rate * elapsed, with tokens cut to integers. */
  lemma ClientBound(rate: nat, burst: nat, start: real, cs: seq<Call>)
    requires Nondecreasing(start, cs)
    ensures Sent(WholePerSecond(rate, burst), Limiter(burst, start), cs) as real
            <= burst as real + AtRate(rate as real)(LastTime(start, cs) - start)
  {
    WholePerSecondCut(rate, burst);
    SentSinceCreation(WholePerSecond(rate, burst), AtRate(rate as real), start, cs);
  }

  /** From an arbitrary call on, one more second's worth may pass: time not yet turned into tokens. */
  lemma SentInWindow(l: SendLimit, f: real -> real, b: Limiter, cs: seq<Call>, t: real)
    requires CutFrom(l, f) && b.tokens <= l.burst
    ensures Sent(l, b, cs) as real <= l.burst as real + f(1.0 + Forward(t, cs))
  {
    SlowTimeWindow(l, b, cs, t);
    SentWithin(l, f, b, cs, 1.0 + Forward(t, cs));
  }

  // When the plain window bound holds: exactly for a limiter without tokens, or one whose tokens and
  // unclaimed time together are worth no more than the burst.

  /** From `t` on, whatever is asked for, at most the burst and what the time after `t` is worth. */
  ghost predicate WindowBounded(l: SendLimit, f: real -> real, b: Limiter, t: real) {
    forall cs :: Nondecreasing(t, cs) ==> Sent(l, b, cs) as real <= l.burst as real + f(LastTime(t, cs) - t)
  }

  lemma CoveredWindow(l: SendLimit, f: real -> real, b: Limiter, t: real, cs: seq<Call>)
    requires CutFrom(l, f) && Nondecreasing(t, cs) && b.tokens as real + f(Clipped(t - b.last)) <= l.burst as real
    ensures Sent(l, b, cs) as real <= l.burst as real + f(LastTime(t, cs) - t)
  {
    var gap, span := Clipped(t - b.last), LastTime(t, cs) - t;
    CoveredTime(l, b, t, cs);
    SentWithin(l, f, b, cs, gap + span);
    AddUp(f, gap, span);
  }

  lemma CoveredTime(l: SendLimit, b: Limiter, t: real, cs: seq<Call>)
    requires Nondecreasing(t, cs)
    ensures SlowTime(l, b, cs) <= Clipped(t - b.last) + (LastTime(t, cs) - t)
  {
    SlowTimeBound(l, b, cs, t, Clipped(t - b.last));
    ForwardIsElapsed(t, cs);
  }

  /** Tokens in hand and the worth of any time that covers the refills bound what is sent. */
  lemma SentWithin(l: SendLimit, f: real -> real, b: Limiter, cs: seq<Call>, span: real)
    requires CutFrom(l, f) && SlowTime(l, b, cs) <= span
    ensures Sent(l, b, cs) as real <= b.tokens as real + f(span)
  {
    SendBudget(l, b, cs);
    SlowGainsBound(l, f, b, cs);
    Monotone(f, SlowTime(l, b, cs), span);
  }

  /** Without tokens the first send refills, and the refill stops at the burst. */
  lemma {:induction false} EmptyWindow(l: SendLimit, f: real -> real, b: Limiter, t: real, cs: seq<Call>)
    requires CutFrom(l, f) && Nondecreasing(t, cs) && b.tokens == 0
    ensures Sent(l, b, cs) as real <= l.burst as real + f(LastTime(t, cs) - t)
    decreases |cs|
  {
    if cs == [] {
      NothingEarned(f);
    } else {
      var c, a := cs[0], AfterSend(l, b, cs[0]);
      var end := LastTime(c.now, cs[1..]);
      ForwardIsElapsed(c.now, cs[1..]);
      Monotone(f, end - c.now, end - t);
      if Fast(b, c) {
        EmptyWindow(l, f, a, c.now, cs[1..]);
      } else {
        RefilledWindow(l, f, a, c.now, cs[1..]);
      }
    }
  }

  /** Right after a refill only tokens in hand and later time count. */
  lemma RefilledWindow(l: SendLimit, f: real -> real, a: Limiter, t: real, cs: seq<Call>)
    requires CutFrom(l, f) && Nondecreasing(t, cs) && a.last == t
    ensures Sent(l, a, cs) as real <= a.tokens as real + f(LastTime(t, cs) - t)
  {
    SlowTimeBound(l, a, cs, t, 0.0);
    ForwardIsElapsed(t, cs);
    SentWithin(l, f, a, cs, LastTime(t, cs) - t);
  }

  /** Spend all tokens at `t`, then claim the unclaimed time at `n`: one byte more than the burst. */
  lemma SpendThenRefill(l: SendLimit, f: real -> real, b: Limiter, t: real, n: real)
    requires CutFrom(l, f) && 0 < b.tokens <= l.burst && t <= n
    requires f(Clipped(n - b.last)) >= (l.burst - b.tokens + 1) as real && f(n - t) < 1.0
    ensures !WindowBounded(l, f, b, t)
  {
    var spend, claim := Call(t, b.tokens), Call(n, l.burst - b.tokens + 1);
    var cs := [spend, claim];
    var a := AfterSend(l, b, spend);
    assert a == Limiter(0, b.last);
    assert l.earn(Clipped(n - b.last)) >= claim.size;
    assert Passes(l, a, claim);
    assert cs[1..] == [claim] && [claim][1..] == [];
    assert Sent(l, a, [claim]) == claim.size + Sent(l, AfterSend(l, a, claim), []);
    assert Sent(l, b, cs) == spend.size + Sent(l, a, [claim]);
    TwoCalls(t, spend, claim);
  }

  lemma TwoCalls(t: real, c: Call, d: Call)
    requires t <= c.now <= d.now
    ensures Nondecreasing(t, [c, d]) && LastTime(t, [c, d]) == d.now
  {
    assert [c, d][1..] == [d] && [d][1..] == [];
  }

  /** How long it takes to earn `y` tokens. */
  lemma EarningTime(rate: real, y: real) returns (w: real)
    requires rate > 0.0 && y > 0.0
    ensures w > 0.0 && AtRate(rate)(w) == y
  {
    w := y / rate;
    assert rate * w == y;
  }

  /** Once less than a token is missing, waiting for it claims a whole one. */
  lemma ClaimAfter(f: real -> real, rate: nat, t: real, last: real, d: nat, wait: real)
    requires Linear(f) && f(1.0) == rate as real && wait > 0.0
    requires d as real < f(Clipped(t - last)) < (d + 1) as real && f(wait) == (d + 1) as real - f(Clipped(t - last))
    ensures f(Clipped(t + wait - last)) >= (d + 1) as real
  {
    var c := Clipped(t - last);
    Monotone(f, c, 1.0);
    NothingEarned(f);
    AddUp(f, c, wait);
    assert rate >= d + 1;
    assert c == t - last && t + wait - last == c + wait;
  }

  /** A moment less than a token's time after `t` at which a whole token more than `d` can be claimed. */
  lemma ClaimMoment(rate: nat, t: real, last: real, d: nat) returns (n: real)
    requires AtRate(rate as real)(Clipped(t - last)) > d as real
    ensures t <= n && AtRate(rate as real)(Clipped(n - last)) >= (d + 1) as real && AtRate(rate as real)(n - t) < 1.0
  {
    var f := AtRate(rate as real);
    var x := f(Clipped(t - last));
    AtRateIsLinear(rate as real);
    NothingEarned(f);
    if x >= (d + 1) as real {
      n := t;
      assert n - t == 0.0;
    } else {
      assert rate > 0;
      var wait := EarningTime(rate as real, (d + 1) as real - x);
      assert f(1.0) == rate as real;
      ClaimAfter(f, rate, t, last, d, wait);
      n := t + wait;
      assert n - t == wait;
    }
  }

  lemma BoundedIf(l: SendLimit, f: real -> real, b: Limiter, t: real)
    requires CutFrom(l, f) && (b.tokens == 0 || b.tokens as real + f(Clipped(t - b.last)) <= l.burst as real)
    ensures WindowBounded(l, f, b, t)
  {
    forall cs | Nondecreasing(t, cs) ensures Sent(l, b, cs) as real <= l.burst as real + f(LastTime(t, cs) - t) {
      if b.tokens == 0 { EmptyWindow(l, f, b, t, cs); } else { CoveredWindow(l, f, b, t, cs); }
    }
  }

  /** Tokens in hand and unclaimed time worth more than the burst. */
  predicate Overdrawn(rate: nat, burst: nat, b: Limiter, t: real) {
    b.tokens > 0 && b.tokens as real + AtRate(rate as real)(Clipped(t - b.last)) > burst as real
  }

  lemma CoveredIsBounded(rate: nat, burst: nat, b: Limiter, t: real)
    requires !Overdrawn(rate, burst, b, t)
    ensures WindowBounded(WholePerSecond(rate, burst), AtRate(rate as real), b, t)
  {
    WholePerSecondCut(rate, burst);
    BoundedIf(WholePerSecond(rate, burst), AtRate(rate as real), b, t);
  }

  lemma OverdrawnIsNot(rate: nat, burst: nat, b: Limiter, t: real)
    requires b.tokens <= burst && Overdrawn(rate, burst, b, t)
    ensures !WindowBounded(WholePerSecond(rate, burst), AtRate(rate as real), b, t)
  {
    var n := ClaimMoment(rate, t, b.last, burst - b.tokens);
    WholePerSecondCut(rate, burst);
    SpendThenRefill(WholePerSecond(rate, burst), AtRate(rate as real), b, t, n);
  }

  /** Main theorem: exactly when the client limiter keeps the window bound from a moment on. */
  lemma WindowBoundedIff(rate: nat, burst: nat, b: Limiter, t: real)
    requires b.tokens <= burst
    ensures WindowBounded(WholePerSecond(rate, burst), AtRate(rate as real), b, t)
            <==> b.tokens == 0 || b.tokens as real + AtRate(rate as real)(Clipped(t - b.last)) <= burst as real
  {
    if Overdrawn(rate, burst, b, t) { OverdrawnIsNot(rate, burst, b, t); } else { CoveredIsBounded(rate, burst, b, t); }
  }

  /** A call is refused only if it asks for more than the burst, or than the tokens held and the time
      since the last refill, at most a second, are worth, less a token lost in cutting. */
  lemma ClientRefusedOnlyIf(l: SendLimit, f: real -> real, b: Limiter, c: Call)
    requires CutFrom(l, f) && !Passes(l, b, c)
    ensures c.size > b.tokens
    ensures c.size > l.burst || (c.size + 1) as real > b.tokens as real + f(Clipped(c.now - b.last))
  {
  }

  /** That second is real: twice the burst can pass in one instant, once a second went by. */
  lemma TwiceTheBurstAtOnce(n: nat)
    ensures var l := WholePerSecond(n, n);
            Sent(l, Limiter(n, 0.0), [Call(1.0, n), Call(1.0, n)]) == 2 * n
  {
    var l, b, c := WholePerSecond(n, n), Limiter(n, 0.0), Call(1.0, n);
    var a := AfterSend(l, b, c);
    assert a == Limiter(0, 0.0) && Fast(b, c);
    assert Clipped(1.0 - a.last) == 1.0;
    assert l.earn(1.0) == n by { OneSecond(n); }
    assert Passes(l, a, c);
    assert [c, c][1..] == [c] && [c][1..] == [];
    assert Sent(l, a, [c]) == n + Sent(l, AfterSend(l, a, c), []);
  }

  lemma OneSecond(n: nat)
    ensures WholePerSecond(n, n).earn(1.0) == n
  {
    assert AtRate(n as real)(1.0) == n as real;
  }

  class ClientSendLimiter {
    const rate: nat
    const burst: nat
    var tokens: nat
    var lastTime: real

    ghost function Model(): Limiter
      reads this
    {
      Limiter(tokens, lastTime)
    }

    constructor (rate: nat, burst: nat, now: real)
      ensures this.rate == rate && this.burst == burst && Model() == Limiter(burst, now)
    {
      this.rate, this.burst, tokens, lastTime := rate, burst, burst, now;
    }

    /** allow; calls do not overlap, so the compare-and-swap of the fast path always succeeds. */
    method Allow(now: real, size: nat) returns (ok: bool)
      modifies this
      ensures ok <==> Passes(WholePerSecond(rate, burst), old(Model()), Call(now, size))
      ensures Model() == AfterSend(WholePerSecond(rate, burst), old(Model()), Call(now, size))
    {
      if tokens >= size {
        tokens := tokens - size;
        return true;
      }
      ok := AllowSlow(now, size);
    }

    method AllowSlow(now: real, size: nat) returns (ok: bool)
      requires tokens < size
      modifies this
      ensures ok <==> Passes(WholePerSecond(rate, burst), old(Model()), Call(now, size))
      ensures Model() == AfterSend(WholePerSecond(rate, burst), old(Model()), Call(now, size))
    {
      var elapsed := now - lastTime;
      lastTime := now;
      if elapsed < 0.0 { elapsed := 0.0; }
      if elapsed > 1.0 { elapsed := 1.0; }
      var t := tokens + WholePerSecond(rate, burst).earn(elapsed);
      if t > burst { t := burst; }
      if t < size {
        tokens := t;
        return false;
      }
      tokens := t - size;
      ok := true;
    }
  }
}
