/** A list of items written one after another and read back one after another. */
module ListCodec {
  import opened Base

  type Writer<!T> = T -> Bytes
  type Reader<!T> = Bytes -> Option<(T, Bytes)>

  function WriteAll<T>(write: Writer<T>, xs: seq<T>): Bytes {
    if xs == [] then [] else WriteAll(write, xs[..|xs| - 1]) + write(xs[|xs| - 1])
  }

  /** `n` items, and what follows them. */
  function ReadMany<T>(read: Reader<T>, data: Bytes, n: nat): Option<(seq<T>, Bytes)>
    decreases n
  {
    if n == 0 then Some(([], data))
    else
      var x := read(data);
      if x.None? then None
      else
        var rest := ReadMany(read, x.value.1, n - 1);
        if rest.None? then None else Some(([x.value.0] + rest.value.0, rest.value.1))
  }

  /** What is written for `x` reads as `y`, whatever follows. */
  ghost predicate ReadsAs<T(!new)>(write: Writer<T>, read: Reader<T>, x: T, y: T) {
    forall rest: Bytes :: read(write(x) + rest) == Some((y, rest))
  }

  lemma Assoc(a: Bytes, b: Bytes, c: Bytes)
    ensures (a + b) + c == a + (b + c)
  {
  }

  /** Appended at the back, read from the front. */
  lemma {:induction false} WriteAllFront<T>(write: Writer<T>, xs: seq<T>)
    requires xs != []
    ensures WriteAll(write, xs) == write(xs[0]) + WriteAll(write, xs[1..])
  {
    var n := |xs| - 1;
    if n == 0 {
      assert xs[..0] == [] && xs[1..] == [];
    } else {
      WriteAllFront(write, xs[..n]);
      assert xs[..n][1..] == xs[1..][..n - 1];
      assert xs[1..][n - 1] == xs[n];
      Assoc(write(xs[0]), WriteAll(write, xs[1..][..n - 1]), write(xs[n]));
    }
  }

  lemma {:induction false} ReadManyUndoesWriteAll<T(!new)>(write: Writer<T>, read: Reader<T>, xs: seq<T>, ys: seq<T>, rest: Bytes)
    requires |xs| == |ys| && forall i :: 0 <= i < |xs| ==> ReadsAs(write, read, xs[i], ys[i])
    ensures ReadMany(read, WriteAll(write, xs) + rest, |xs|) == Some((ys, rest))
    decreases |xs|
  {
    if xs == [] {
      assert WriteAll(write, xs) + rest == rest;
    } else {
      var tail := WriteAll(write, xs[1..]) + rest;
      WriteAllFront(write, xs);
      Assoc(write(xs[0]), WriteAll(write, xs[1..]), rest);
      assert ReadsAs(write, read, xs[0], ys[0]);
      assert read(write(xs[0]) + tail) == Some((ys[0], tail));
      forall i | 0 <= i < |xs[1..]| ensures ReadsAs(write, read, xs[1..][i], ys[1..][i]) {
        assert ReadsAs(write, read, xs[i + 1], ys[i + 1]);
      }
      ReadManyUndoesWriteAll(write, read, xs[1..], ys[1..], rest);
      assert ys == [ys[0]] + ys[1..];
    }
  }

  /** Nothing shorter than what is written for `x` reads as an item. */
  ghost predicate NeedsAll<T(!new)>(write: Writer<T>, read: Reader<T>, x: T) {
    forall m: nat :: m < |write(x)| ==> read(write(x)[..m]) == None
  }

  /** A list cut short anywhere does not read. */
  lemma {:induction false} CutShort<T(!new)>(write: Writer<T>, read: Reader<T>, xs: seq<T>, ys: seq<T>, m: nat)
    requires |xs| == |ys| && forall i :: 0 <= i < |xs| ==> ReadsAs(write, read, xs[i], ys[i]) && NeedsAll(write, read, xs[i])
    requires m < |WriteAll(write, xs)|
    ensures ReadMany(read, WriteAll(write, xs)[..m], |xs|) == None
    decreases |xs|
  {
    var data, x := WriteAll(write, xs)[..m], write(xs[0]);
    WriteAllFront(write, xs);
    if m < |x| {
      assert data == x[..m];
      assert NeedsAll(write, read, xs[0]);
    } else {
      var rest := WriteAll(write, xs[1..])[..m - |x|];
      assert data == x + rest;
      assert ReadsAs(write, read, xs[0], ys[0]);
      forall i | 0 <= i < |xs[1..]| ensures ReadsAs(write, read, xs[1..][i], ys[1..][i]) && NeedsAll(write, read, xs[1..][i]) {
        assert ReadsAs(write, read, xs[i + 1], ys[i + 1]) && NeedsAll(write, read, xs[i + 1]);
      }
      CutShort(write, read, xs[1..], ys[1..], m - |x|);
    }
  }

  /** A list read so far, and the rest of it. */
  function Continue<T>(done: seq<T>, r: Option<(seq<T>, Bytes)>): Option<(seq<T>, Bytes)> {
    if r.None? then None else Some((done + r.value.0, r.value.1))
  }

  lemma ContinueNone<T>(r: Option<(seq<T>, Bytes)>)
    ensures Continue([], r) == r
  {
    if r.Some? { assert [] + r.value.0 == r.value.0; }
  }

  lemma ContinueStep<T>(read: Reader<T>, done: seq<T>, data: Bytes, n: nat)
    requires n > 0
    ensures var x := read(data);
            Continue(done, ReadMany(read, data, n))
            == if x.None? then None else Continue(done + [x.value.0], ReadMany(read, x.value.1, n - 1))
  {
    var x := read(data);
    if x.Some? {
      var rest := ReadMany(read, x.value.1, n - 1);
      if rest.Some? { assert done + ([x.value.0] + rest.value.0) == (done + [x.value.0]) + rest.value.0; }
    }
  }

  lemma ContinueEnd<T>(read: Reader<T>, done: seq<T>, data: Bytes)
    ensures Continue(done, ReadMany(read, data, 0)) == Some((done, data))
  {
    assert done + [] == done;
  }
}
