/**
 The receiver's replay window and the sender's nonce counter:
 internal/crypto/crypto.go. A 64-bit bitmap relative to the highest counter
 stands for the set of all counters admitted so far.
 */
module ReplayWindow {
  import opened Base
  import opened LittleEndian
  import opened Word64

  const WINDOW := 64
  const UINT64: nat := 0x1_0000_0000_0000_0000

  // ── The window as a set ────────────────────────────────────────

  /** A counter is fresh when it was never admitted and is less than 64 behind every admitted one. */
  predicate IsFresh(seen: set<nat>, ctr: nat) {
    ctr !in seen && forall h | h in seen :: h - ctr < WINDOW
  }

  function Admit(seen: set<nat>, ctr: nat): set<nat> { if IsFresh(seen, ctr) then seen + {ctr} else seen }

  /** `highest` and `bitmap` stand for the set `seen`: bit d is counter highest - d. */
  ghost predicate Represents(highest: nat, bitmap: bv64, seen: set<nat>) {
    && (forall h | h in seen :: h <= highest)
    && (highest == 0 || highest in seen)
    && (forall d: nat | d < 64 :: Bit(bitmap, d) <==> highest - d in seen)
  }

  lemma ShiftRepresents(highest: nat, bitmap: bv64, seen: set<nat>, ctr: nat)
    requires Represents(highest, bitmap, seen) && highest < ctr < highest + WINDOW
    ensures Represents(ctr, With(ShiftLeft(bitmap, ctr - highest), Mask(0)), seen + {ctr})
  {
    var shift := ctr - highest;
    var b := With(ShiftLeft(bitmap, shift), Mask(0));
    forall d: nat | d < 64 ensures Bit(b, d) <==> ctr - d in seen + {ctr} {
      BitWith(ShiftLeft(bitmap, shift), 0, d);
      BitShiftLeft(bitmap, shift, d);
      if d >= shift { assert ctr - d == highest - (d - shift); }
    }
  }

  lemma JumpRepresents(highest: nat, bitmap: bv64, seen: set<nat>, ctr: nat)
    requires Represents(highest, bitmap, seen) && highest + WINDOW <= ctr
    ensures Represents(ctr, Mask(0), seen + {ctr})
  {
    forall d: nat | d < 64 ensures Bit(Mask(0), d) <==> ctr - d in seen + {ctr} { MaskFacts(0, d); }
  }

  lemma MarkRepresents(highest: nat, bitmap: bv64, seen: set<nat>, ctr: nat)
    requires Represents(highest, bitmap, seen) && ctr <= highest < ctr + WINDOW
    ensures Represents(highest, With(bitmap, Mask(highest - ctr)), seen + {ctr})
  {
    var b := With(bitmap, Mask(highest - ctr));
    forall d: nat | d < 64 ensures Bit(b, d) <==> highest - d in seen + {ctr} { BitWith(bitmap, highest - ctr, d); }
  }

  class Window {
    var replayCounter: nat
    var replayBitmap: bv64
    ghost var seen: set<nat>

    ghost predicate Valid()
      reads this
    {
      replayCounter < UINT64 && Represents(replayCounter, replayBitmap, seen)
    }

    constructor ()
      ensures Valid() && seen == {} && replayCounter == 0
    {
      replayCounter, replayBitmap, seen := 0, 0, {};
      new;
      forall d: nat | d < 64 ensures !Bit(replayBitmap, d) { ZeroHasNone(Mask(d)); }
    }

    /** checkReplayWindow. */
    method Check(ctr: nat) returns (ok: bool)
      requires Valid() && ctr < UINT64
      modifies this
      ensures Valid()
      ensures ok <==> IsFresh(old(seen), ctr)
      ensures seen == Admit(old(seen), ctr)
    {
      if ctr > replayCounter {
        var shift := ctr - replayCounter;
        if shift < WINDOW {
          ShiftRepresents(replayCounter, replayBitmap, seen, ctr);
          replayBitmap := With(ShiftLeft(replayBitmap, shift), Mask(0));
        } else {
          JumpRepresents(replayCounter, replayBitmap, seen, ctr);
          replayBitmap := Mask(0);
        }
        replayCounter := ctr;
        seen := seen + {ctr};
        return true;
      }
      var diff := replayCounter - ctr;
      if diff >= WINDOW { return false; }
      if Bit(replayBitmap, diff) { return false; }
      MarkRepresents(replayCounter, replayBitmap, seen, ctr);
      replayBitmap := With(replayBitmap, Mask(diff));
      seen := seen + {ctr};
      ok := true;
    }
  }

  // ── Whole deliveries ───────────────────────────────────────────

  ghost function Deliver(seen: set<nat>, cs: seq<nat>): set<nat>
    decreases |cs|
  {
    if cs == [] then seen else Deliver(Admit(seen, cs[0]), cs[1..])
  }

  ghost predicate AllAdmitted(seen: set<nat>, cs: seq<nat>)
    decreases |cs|
  {
    cs == [] || (IsFresh(seen, cs[0]) && AllAdmitted(seen + {cs[0]}, cs[1..]))
  }

  /** No counter twice, and none 64 or more behind one that came before it. */
  ghost predicate InOrderEnough(seen: set<nat>, cs: seq<nat>) {
    && (forall i :: 0 <= i < |cs| ==> IsFresh(seen, cs[i]))
    && (forall i, j :: 0 <= i < j < |cs| ==> cs[i] != cs[j] && cs[i] - cs[j] < WINDOW)
  }

  /** Exactly the deliveries without duplicates and without stragglers are admitted in full. */
  lemma {:induction false} FullyAdmitted(seen: set<nat>, cs: seq<nat>)
    ensures AllAdmitted(seen, cs) <==> InOrderEnough(seen, cs)
    decreases |cs|
  {
    if cs != [] {
      var rest := cs[1..];
      FullyAdmitted(seen + {cs[0]}, rest);
      if AllAdmitted(seen, cs) {
        forall i | 0 <= i < |cs| ensures IsFresh(seen, cs[i]) {
          if i > 0 { assert IsFresh(seen + {cs[0]}, rest[i - 1]); }
        }
        forall i, j | 0 <= i < j < |cs| ensures cs[i] != cs[j] && cs[i] - cs[j] < WINDOW {
          if i == 0 { assert IsFresh(seen + {cs[0]}, rest[j - 1]); } else { assert rest[i - 1] != rest[j - 1]; }
        }
      }
      if InOrderEnough(seen, cs) {
        forall i | 0 <= i < |rest| ensures IsFresh(seen + {cs[0]}, rest[i]) {
          assert rest[i] == cs[i + 1] && IsFresh(seen, cs[i + 1]);
        }
        forall i, j | 0 <= i < j < |rest| ensures rest[i] != rest[j] && rest[i] - rest[j] < WINDOW {
          assert rest[i] == cs[i + 1] && rest[j] == cs[j + 1];
        }
      }
    }
  }

  /** A counter is admitted at most once over any delivery. */
  lemma {:induction false} NeverTwice(seen: set<nat>, cs: seq<nat>, ctr: nat)
    requires ctr in seen
    ensures ctr in Deliver(seen, cs) && !IsFresh(Deliver(seen, cs), ctr)
    decreases |cs|
  {
    if cs != [] { NeverTwice(Admit(seen, cs[0]), cs[1..], ctr); }
  }

  /** All senders of a room share the receiver's one window: once a counter is admitted, counters 64
      or more below it stay refused, whoever sends them. */
  lemma {:induction false} StragglersStayRefused(seen: set<nat>, cs: seq<nat>, high: nat, ctr: nat)
    requires high in seen && high - ctr >= WINDOW
    ensures !IsFresh(Deliver(seen, cs), ctr)
    decreases |cs|
  {
    if cs != [] { StragglersStayRefused(Admit(seen, cs[0]), cs[1..], high, ctr); }
  }

  // ── The sender ─────────────────────────────────────────────────

  /** Counter of the i-th packet of a cipher whose counter starts at `start`. */
  function CounterAt(start: nat, i: nat): nat { (start + 1 + i) % UINT64 }

  function Nonce(ctr: nat, dirTag: Bytes): Bytes { ToLE(ctr, 8) + dirTag }

  /** makeNonce: atomic increment modulo 2^64, then counter and direction tag. */
  class NonceSource {
    var counter: nat
    const dirTag: Bytes
    ghost var start: nat
    ghost var sent: nat

    ghost predicate Valid()
      reads this
    {
      counter == (start + sent) % UINT64 && start < UINT64
    }

    constructor (start: nat, dirTag: Bytes)
      requires start < UINT64
      ensures Valid() && this.start == start && sent == 0 && this.dirTag == dirTag
    {
      counter, this.dirTag, this.start, sent := start, dirTag, start, 0;
    }

    method MakeNonce() returns (nonce: Bytes)
      requires Valid()
      modifies this
      ensures Valid() && start == old(start) && sent == old(sent) + 1
      ensures nonce == Nonce(CounterAt(start, old(sent)), dirTag)
    {
      counter := (counter + 1) % UINT64;
      ModStep(start + sent);
      sent := sent + 1;
      nonce := Nonce(counter, dirTag);
    }
  }

  lemma ModStep(x: nat)
    ensures (x % UINT64 + 1) % UINT64 == (x + 1) % UINT64
  {
  }

  lemma Pow256Eight()
    ensures Pow256(8) == UINT64
  {
    assert Pow256(4) == 0x1_0000_0000;
  }

  /** The counter a receiver reads out of a nonce. */
  lemma CounterOfNonce(ctr: nat, dirTag: Bytes)
    requires ctr < UINT64
    ensures FromLE(Nonce(ctr, dirTag)[0..8]) == ctr
  {
    FromToLE(ctr, 8);
    Pow256Eight();
    assert Nonce(ctr, dirTag)[0..8] == ToLE(ctr, 8);
  }

  /** Any two of fewer than 2^64 consecutive packets of one cipher carry different nonces. */
  lemma NoncesDistinct(start: nat, i: nat, j: nat, dirTag: Bytes)
    requires i < j < i + UINT64
    ensures Nonce(CounterAt(start, i), dirTag) != Nonce(CounterAt(start, j), dirTag)
  {
    CounterOfNonce(CounterAt(start, i), dirTag);
    CounterOfNonce(CounterAt(start, j), dirTag);
    DifferentRemainder(start + 1 + i, start + 1 + j);
  }

  lemma DifferentRemainder(x: nat, y: nat)
    requires x < y < x + UINT64
    ensures x % UINT64 != y % UINT64
  {
  }

  /** Packets of one sender, before its counter wraps, delivered once each and never 64 or
      more behind an earlier arrival, are all admitted by a fresh window. */
  lemma OneSenderAdmitted(start: nat, arrivals: seq<nat>)
    requires forall i :: 0 <= i < |arrivals| ==> start + 1 + arrivals[i] < UINT64
    requires forall i, j :: 0 <= i < j < |arrivals| ==> arrivals[i] != arrivals[j] && arrivals[i] - arrivals[j] < WINDOW
    ensures AllAdmitted({}, seq(|arrivals|, i requires 0 <= i < |arrivals| => CounterAt(start, arrivals[i])))
  {
    var cs := seq(|arrivals|, i requires 0 <= i < |arrivals| => CounterAt(start, arrivals[i]));
    assert forall i :: 0 <= i < |cs| ==> cs[i] == start + 1 + arrivals[i];
    FullyAdmitted({}, cs);
  }
}
