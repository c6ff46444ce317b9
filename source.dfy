/**
 The sample source of the fosphor test harness: the input file (or standard
 input) read with `fread` and rewound with `fseek(fh, 0, SEEK_SET)`, and the
 byte stream that the batch-fill loop obtains from it when every end of file
 is answered by a rewind.
 */
module SampleSource {

  /** The contents of the opened file and the read position of its handle. */
  class Source {
    const data: seq<bv8>
    // whether `fseek(fh, 0, SEEK_SET)` succeeds (false for a pipe)
    const seekable: bool
    var pos: nat

    ghost predicate Valid()
      reads this
    {
      pos <= |data|
    }

    constructor (data: seq<bv8>, seekable: bool)
      ensures Valid()
      ensures this.data == data && this.seekable == seekable && pos == 0
    {
      this.data := data;
      this.seekable := seekable;
      pos := 0;
    }

    /** `fread(buf + off, 1, n, fh)`: copies the next bytes of the file, at
        most `n`, and returns how many; 0 at end of file. */
    method Read(buf: array<bv8>, off: nat, n: nat) returns (rc: int)
      requires Valid()
      requires off + n <= buf.Length
      modifies this, buf
      ensures Valid()
      ensures 0 <= rc <= n
      ensures rc == 0 <==> n == 0 || old(pos) == |data|
      ensures rc == n || pos == |data|
      ensures pos == old(pos) + rc
      ensures buf[off..off + rc] == data[old(pos)..pos]
      ensures forall i :: 0 <= i < buf.Length && !(off <= i < off + rc) ==> buf[i] == old(buf[i])
    {
      rc := if n <= |data| - pos then n else |data| - pos;
      var j := 0;
      while j < rc
        modifies buf
        invariant 0 <= j <= rc
        invariant forall i :: off <= i < off + j ==> buf[i] == data[pos + i - off]
        invariant forall i :: 0 <= i < buf.Length && !(off <= i < off + j) ==> buf[i] == old(buf[i])
      {
        buf[off + j] := data[pos + j];
        j := j + 1;
      }
      pos := pos + rc;
    }

    /** `fseek(fh, 0, SEEK_SET)`: returns true when the rewind failed. */
    method Rewind() returns (failed: bool)
      requires Valid()
      modifies this
      ensures Valid()
      ensures failed == !seekable
      ensures pos == if seekable then 0 else old(pos)
    {
      failed := !seekable;
      if seekable {
        pos := 0;
      }
    }
  }

  /** The `k` bytes delivered from position `p` of `data` when every end of
      file is followed by a rewind to the start. */
  function Looped(data: seq<bv8>, p: nat, k: nat): (s: seq<bv8>)
    requires 0 < |data| && p <= |data|
    ensures |s| == k
    decreases k, if p < |data| then 0 else 1
  {
    if k == 0 then []
    else if p == |data| then Looped(data, 0, k)
    else [data[p]] + Looped(data, p + 1, k - 1)
  }

  /** The read position after those `k` bytes have been delivered. */
  function LoopedEnd(data: seq<bv8>, p: nat, k: nat): (q: nat)
    requires 0 < |data| && p <= |data|
    ensures q <= |data|
    ensures k == 0 ==> q == p
    ensures 0 < k ==> 0 < q
    decreases k, if p < |data| then 0 else 1
  {
    if k == 0 then p
    else if p == |data| then LoopedEnd(data, 0, k)
    else LoopedEnd(data, p + 1, k - 1)
  }

  lemma MulAtLeast(d: int, n: int)
    requires 1 <= d && 0 < n
    ensures d * n >= n
  {
  }

  /** Euclidean remainder is unique. */
  lemma ModUnique(x: int, n: int, q: int, r: int)
    requires 0 < n && 0 <= r < n && x == q * n + r
    ensures x % n == r
  {
    var q', r' := x / n, x % n;
    assert x == q' * n + r';
    var d := q - q';
    assert d * n == r' - r by {
      assert q * n - q' * n == (q - q') * n;
    }
    if d > 0 {
      MulAtLeast(d, n);
    } else if d < 0 {
      MulAtLeast(-d, n);
    }
  }

  lemma ModWrap(n: nat, i: nat)
    requires 0 < n
    ensures (n + i) % n == i % n
  {
    var q := i / n;
    assert i == q * n + i % n;
    assert n + i == (q + 1) * n + i % n;
    ModUnique(n + i, n, q + 1, i % n);
  }

  /** The looped stream is the file repeated end to end: byte `i` delivered
      from position `p` is byte `(p + i) mod |data|` of the file. */
  lemma {:induction false} LoopedAt(data: seq<bv8>, p: nat, k: nat, i: nat)
    requires 0 < |data| && p <= |data| && i < k
    ensures Looped(data, p, k)[i] == data[(p + i) % |data|]
    decreases k, if p < |data| then 0 else 1
  {
    var n := |data|;
    if p == n {
      assert Looped(data, p, k) == Looped(data, 0, k);
      LoopedAt(data, 0, k, i);
      ModWrap(n, i);
      assert (p + i) % n == i % n;
    } else {
      var s := Looped(data, p + 1, k - 1);
      assert Looped(data, p, k) == [data[p]] + s;
      if i == 0 {
        ModUnique(p, n, 0, p);
        assert (p + i) % n == p;
      } else {
        LoopedAt(data, p + 1, k - 1, i - 1);
        assert Looped(data, p, k)[i] == s[i - 1];
        assert (p + 1) + (i - 1) == p + i;
      }
    }
  }

  /** The read position after `k > 0` bytes, in closed form: the position
      one past byte `(p + k - 1) mod |data|`, so a fill that ends exactly at
      the end of the file leaves the position there, not at 0. */
  lemma {:induction false} LoopedEndAt(data: seq<bv8>, p: nat, k: nat)
    requires 0 < |data| && p <= |data| && 0 < k
    ensures LoopedEnd(data, p, k) == (p + k - 1) % |data| + 1
    decreases k, if p < |data| then 0 else 1
  {
    var n := |data|;
    if p == n {
      LoopedEndAt(data, 0, k);
      ModWrap(n, k - 1);
    } else if k == 1 {
      ModUnique(p, n, 0, p);
    } else {
      LoopedEndAt(data, p + 1, k - 1);
      assert (p + 1) + (k - 1) - 1 == p + k - 1;
    }
  }

  /** Reading `m` bytes that do not cross the end of the file delivers the
      next `m` bytes of the file and moves the position by `m`. */
  lemma {:induction false} LoopedPrefix(data: seq<bv8>, p: nat, k: nat, m: nat)
    requires 0 < |data| && p + m <= |data| && m <= k
    ensures Looped(data, p, k) == data[p..p + m] + Looped(data, p + m, k - m)
    ensures LoopedEnd(data, p, k) == LoopedEnd(data, p + m, k - m)
    decreases m
  {
    if m > 0 {
      LoopedPrefix(data, p + 1, k - 1, m - 1);
      assert data[p..p + m] == [data[p]] + data[p + 1..p + m];
    }
  }

  /** Delivering `a + b` bytes is delivering `a` bytes and then `b` bytes
      from where the first `a` left the read position. */
  lemma {:induction false} LoopedConcat(data: seq<bv8>, p: nat, a: nat, b: nat)
    requires 0 < |data| && p <= |data|
    ensures Looped(data, p, a + b) == Looped(data, p, a) + Looped(data, LoopedEnd(data, p, a), b)
    ensures LoopedEnd(data, p, a + b) == LoopedEnd(data, LoopedEnd(data, p, a), b)
    decreases a, if p < |data| then 0 else 1
  {
    if a == 0 {
      assert Looped(data, p, a) == [];
    } else if p == |data| {
      LoopedConcat(data, 0, a, b);
    } else {
      var q := LoopedEnd(data, p + 1, a - 1);
      LoopedConcat(data, p + 1, a - 1, b);
      calc {
        Looped(data, p, a + b);
        [data[p]] + Looped(data, p + 1, (a - 1) + b);
        [data[p]] + (Looped(data, p + 1, a - 1) + Looped(data, q, b));
        ([data[p]] + Looped(data, p + 1, a - 1)) + Looped(data, q, b);
        Looped(data, p, a) + Looped(data, q, b);
      }
    }
  }
}
