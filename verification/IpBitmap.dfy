/**
 The 256-bit address bitmap of a room, kept in four 64-bit words:
 internal/server/room.go. Its meaning is the set of octets whose bit is set.
 */
module IpBitmap {
  import opened Base
  import opened Word64
  import RoomModel

  ghost function UsedSet(words: seq<bv64>): set<int>
    requires |words| == 4
  {
    set o | 0 <= o < 256 && o % 64 in BitsOf(words[o / 64])
  }

  lemma EmptySet()
    ensures UsedSet([0, 0, 0, 0]) == {}
  {
    BitsOfZero(0);
  }

  method MarkUsed(bitmap: array<bv64>, o: byte)
    requires bitmap.Length == 4
    modifies bitmap
    ensures UsedSet(bitmap[..]) == old(UsedSet(bitmap[..])) + {o as int}
  {
    BitsOfWith(bitmap[o / 64], o % 64);
    bitmap[o / 64] := With(bitmap[o / 64], Mask(o % 64));
  }

  method MarkFree(bitmap: array<bv64>, o: byte)
    requires bitmap.Length == 4
    modifies bitmap
    ensures UsedSet(bitmap[..]) == old(UsedSet(bitmap[..])) - {o as int}
  {
    BitsOfWithout(bitmap[o / 64], o % 64);
    bitmap[o / 64] := Without(bitmap[o / 64], Mask(o % 64));
  }

  method IsMarked(bitmap: array<bv64>, o: byte) returns (marked: bool)
    requires bitmap.Length == 4
    ensures marked <==> o in UsedSet(bitmap[..])
  {
    marked := Bit(bitmap[o / 64], o % 64);
  }

  /** Octets 2..254 below `n` are all used. */
  ghost predicate UsedBelow(words: seq<bv64>, n: nat)
    requires |words| == 4
  {
    forall o | 2 <= o < n && o < 255 :: o in UsedSet(words)
  }

  /** What the scan still has to look at in a word: nothing used, and every free octet it may hand out. */
  ghost predicate Remaining(word: set<int>, i: nat, free: set<int>) {
    free <= POSITIONS - word && forall b | b in POSITIONS - word :: 2 <= i * 64 + b < 255 ==> b in free
  }

  /** Octets of word `i` that are handed out only from `free`. */
  lemma OctetUsed(words: seq<bv64>, i: nat, free: set<int>, o: int)
    requires |words| == 4 && i < 4 && Remaining(BitsOf(words[i]), i, free)
    requires i * 64 <= o < i * 64 + 64 && 2 <= o < 255 && o - i * 64 !in free
    ensures o in UsedSet(words)
  {
    assert o / 64 == i && o % 64 == o - i * 64;
    assert o - i * 64 in POSITIONS;
  }

  lemma WordUsed(words: seq<bv64>, i: nat)
    requires |words| == 4 && i < 4 && UsedBelow(words, i * 64) && Remaining(BitsOf(words[i]), i, {})
    ensures UsedBelow(words, i * 64 + 64)
  {
    forall o | i * 64 <= o < i * 64 + 64 && 2 <= o < 255 ensures o in UsedSet(words) { OctetUsed(words, i, {}, o); }
  }

  lemma LeastFree(words: seq<bv64>, i: nat, free: set<int>, b: nat)
    requires |words| == 4 && i < 4 && UsedBelow(words, i * 64) && Remaining(BitsOf(words[i]), i, free)
    requires b in free && (forall c :: c in free ==> b <= c) && 2 <= i * 64 + b < 255
    ensures RoomModel.FirstFree(UsedSet(words), 2) == Some(i * 64 + b)
  {
    var octet := i * 64 + b;
    assert b in POSITIONS - BitsOf(words[i]);
    assert octet / 64 == i && octet % 64 == b;
    forall o | 2 <= o < octet ensures o in UsedSet(words) {
      if o >= i * 64 { OctetUsed(words, i, free, o); }
    }
    OnlyLeast(UsedSet(words), octet);
  }

  lemma OnlyLeast(used: set<int>, o: int)
    requires 2 <= o < 255 && o !in used && forall p | 2 <= p < o :: p in used
    ensures RoomModel.FirstFree(used, 2) == Some(o)
  {
    var f := RoomModel.FirstFree(used, 2);
    assert f.Some?;
    assert f.value <= o;
  }

  /** Inner loop of the scan: the first free bit of one word that is an octet in 2..254. */
  method ScanWord(words: seq<bv64>, i: nat) returns (r: Option<byte>)
    requires |words| == 4 && i < 4 && UsedBelow(words, i * 64)
    ensures r.Some? ==> r == RoomModel.FirstFree(UsedSet(words), 2)
    ensures r.None? ==> UsedBelow(words, i * 64 + 64)
  {
    var free := Flip(words[i]);
    BitsOfFlip(words[i]);
    BitsOfZero(free);
    while free != 0
      invariant Remaining(BitsOf(words[i]), i, BitsOf(free))
      invariant free == 0 <==> BitsOf(free) == {}
      decreases BitsOf(free)
    {
      var bit, rest := PopLowest(free);
      if 2 <= i * 64 + bit < 255 {
        LeastFree(words, i, BitsOf(free), bit);
        return Some(i * 64 + bit);
      }
      BitsOfZero(rest);
      free := rest;
    }
    WordUsed(words, i);
    r := None;
  }

  /** nextAvailableIP: the least free octet in 2..254, if there is one. */
  method NextAvailable(bitmap: array<bv64>) returns (r: Option<byte>)
    requires bitmap.Length == 4
    ensures r == RoomModel.FirstFree(UsedSet(bitmap[..]), 2)
  {
    var i := 0;
    while i < 4
      invariant 0 <= i <= 4 && UsedBelow(bitmap[..], i * 64)
    {
      if bitmap[i] == FULL {
        BitsOfFull();
        WordUsed(bitmap[..], i);
      } else {
        r := ScanWord(bitmap[..], i);
        if r.Some? { return; }
      }
      i := i + 1;
    }
    r := None;
  }
}
