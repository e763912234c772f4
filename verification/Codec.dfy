/** Writers and readers of one kind of record, and the lists built from them. */
module Codec {
  import opened Common

  /** The reader returns what was written and consumes exactly that. */
  ghost predicate Reads<T(!new)>(write: T -> Bytes, read: Bytes -> Option<(T, Bytes)>, valid: T -> bool) {
    forall t, rest :: valid(t) ==> read(write(t) + rest) == Some((t, rest))
  }

  /** The reader accepts nothing but what the writer produces for valid records. */
  ghost predicate Canonical<T(!new)>(write: T -> Bytes, read: Bytes -> Option<(T, Bytes)>, valid: T -> bool) {
    forall s :: read(s).Some? ==> valid(read(s).value.0) && s == write(read(s).value.0) + read(s).value.1
  }

  function WriteAll<T>(write: T -> Bytes, ts: seq<T>): Bytes {
    if ts == [] then [] else write(ts[0]) + WriteAll(write, ts[1..])
  }

  /** The loop that appends records to a buffer. */
  method AppendAll<T>(prefix: Bytes, write: T -> Bytes, ts: seq<T>) returns (bytes: Bytes)
    ensures bytes == prefix + WriteAll(write, ts)
  {
    bytes := prefix;
    var i := 0;
    while i < |ts|
      invariant i <= |ts|
      invariant bytes == prefix + WriteAll(write, ts[..i])
    {
      WriteAllAppend(write, ts[..i], ts[i]);
      Assoc(prefix, WriteAll(write, ts[..i]), write(ts[i]));
      assert ts[..i + 1] == ts[..i] + [ts[i]];
      bytes := bytes + write(ts[i]);
      i := i + 1;
    }
    assert ts[..i] == ts;
  }

  function ReadMany<T>(read: Bytes -> Option<(T, Bytes)>, n: nat, s: Bytes): Option<(seq<T>, Bytes)> {
    if n == 0 then Some(([], s))
    else
      match read(s)
      case None => None
      case Some((t, rest)) =>
        match ReadMany(read, n - 1, rest)
        case None => None
        case Some((ts, end)) => Some(([t] + ts, end))
  }

  lemma {:induction false} ManyReads<T(!new)>(
    write: T -> Bytes, read: Bytes -> Option<(T, Bytes)>, valid: T -> bool, ts: seq<T>, rest: Bytes)
    requires Reads(write, read, valid) && forall i :: 0 <= i < |ts| ==> valid(ts[i])
    ensures ReadMany(read, |ts|, WriteAll(write, ts) + rest) == Some((ts, rest))
    decreases |ts|
  {
    if ts == [] {
      assert WriteAll(write, ts) + rest == rest;
    } else {
      var tail := WriteAll(write, ts[1..]) + rest;
      assert WriteAll(write, ts) + rest == write(ts[0]) + tail;
      assert valid(ts[0]);
      assert read(write(ts[0]) + tail) == Some((ts[0], tail));
      ManyReads(write, read, valid, ts[1..], rest);
      assert [ts[0]] + ts[1..] == ts;
    }
  }

  lemma {:induction false} ManyIsCanonical<T(!new)>(
    write: T -> Bytes, read: Bytes -> Option<(T, Bytes)>, valid: T -> bool, n: nat, s: Bytes)
    requires Canonical(write, read, valid) && ReadMany(read, n, s).Some?
    ensures var (ts, rest) := ReadMany(read, n, s).value;
      && |ts| == n && s == WriteAll(write, ts) + rest
      && forall i :: 0 <= i < n ==> valid(ts[i])
    decreases n
  {
    if n > 0 {
      var (t, mid) := read(s).value;
      ManyIsCanonical(write, read, valid, n - 1, mid);
      var (ts, rest) := ReadMany(read, n, s).value;
      assert ts[0] == t && ts[1..] == ReadMany(read, n - 1, mid).value.0;
      assert valid(read(s).value.0) && s == write(t) + mid;
      assert write(t) + (WriteAll(write, ts[1..]) + rest) == (write(t) + WriteAll(write, ts[1..])) + rest;
    }
  }

  /** Without any count, a concatenation of records determines the records. */
  lemma {:induction false} WriteAllIsInjective<T(!new)>(
    write: T -> Bytes, read: Bytes -> Option<(T, Bytes)>, valid: T -> bool, a: seq<T>, b: seq<T>)
    requires Reads(write, read, valid)
    requires forall i :: 0 <= i < |a| ==> valid(a[i]) && write(a[i]) != []
    requires forall i :: 0 <= i < |b| ==> valid(b[i]) && write(b[i]) != []
    requires WriteAll(write, a) == WriteAll(write, b)
    ensures a == b
    decreases |a|
  {
    assert a != [] ==> valid(a[0]) && WriteAll(write, a) != [];
    assert b != [] ==> valid(b[0]) && WriteAll(write, b) != [];
    if a != [] {
      var ra, rb := WriteAll(write, a[1..]), WriteAll(write, b[1..]);
      assert read(write(a[0]) + ra) == Some((a[0], ra)) && read(write(b[0]) + rb) == Some((b[0], rb));
      WriteAllIsInjective(write, read, valid, a[1..], b[1..]);
      assert a == [a[0]] + a[1..] && b == [b[0]] + b[1..];
    }
  }

  lemma {:induction false} WriteAllAppend<T>(write: T -> Bytes, ts: seq<T>, t: T)
    ensures WriteAll(write, ts + [t]) == WriteAll(write, ts) + write(t)
    decreases |ts|
  {
    if ts == [] {
      assert ts + [t] == [t];
    } else {
      assert (ts + [t])[1..] == ts[1..] + [t];
      WriteAllAppend(write, ts[1..], t);
    }
  }

  /** A slice behind a prefix is a slice of the rest. */
  lemma SliceBehind(head: Bytes, tail: Bytes, from: nat, to: nat)
    requires from <= to <= |tail|
    ensures (head + tail)[|head| + from..|head| + to] == tail[from..to]
  {
  }

  /** What stands at an offset, and what follows it. */
  lemma FieldAt(p: Bytes, at: nat, x: Bytes, rest: Bytes)
    requires at <= |p| && p[at..] == x + rest
    ensures at + |x| <= |p| && p[at..at + |x|] == x && p[at + |x|..] == rest
  {
    assert p[at..at + |x|] == p[at..][..|x|] && p[at + |x|..] == p[at..][|x|..];
    assert (x + rest)[..|x|] == x && (x + rest)[|x|..] == rest;
  }

  lemma SizeTimes(size: nat, k: nat)
    ensures size * (k + 1) == size + size * k
  {
  }

  lemma {:induction false} FixedSizeLength<T>(write: T -> Bytes, size: nat, ts: seq<T>)
    requires forall t :: t in ts ==> |write(t)| == size
    ensures |WriteAll(write, ts)| == size * |ts|
    decreases |ts|
  {
    if ts != [] {
      assert ts[0] in ts;
      FixedSizeLength(write, size, ts[1..]);
      SizeTimes(size, |ts| - 1);
    }
  }

  /** Records of one fixed size sit at multiples of that size. */
  lemma {:induction false} FixedSizeSlices<T>(write: T -> Bytes, size: nat, ts: seq<T>, i: nat)
    requires (forall t :: t in ts ==> |write(t)| == size) && i < |ts|
    ensures size * i + size <= |WriteAll(write, ts)|
    ensures WriteAll(write, ts)[size * i..size * i + size] == write(ts[i])
    decreases |ts|
  {
    assert ts[0] in ts;
    if i == 0 {
      assert size * i == 0;
    } else {
      FixedSizeSlices(write, size, ts[1..], i - 1);
      var off := size * (i - 1);
      SizeTimes(size, i - 1);
      SliceBehind(write(ts[0]), WriteAll(write, ts[1..]), off, off + size);
    }
  }
}
