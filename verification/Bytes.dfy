/** Byte strings and the small result types every other module uses. */
module Bytes {

  type byte = x: int | 0 <= x < 256

  type bytes = seq<byte>

  datatype Option<+T> = None | Some(value: T)

  /** Python raises ValueError or IndexError where a model function returns Err. */
  datatype Result<+T> = Ok(value: T) | Err(reason: string)

  /** `n.to_bytes(2, "little")` of an int that fits in two bytes. */
  function Le16(n: nat): (b: bytes)
    requires n < 65536
    ensures |b| == 2 && FromLe16(b) == n
  {
    [n % 256, n / 256]
  }

  function FromLe16(b: bytes): (n: nat)
    requires |b| == 2
    ensures n < 65536
  {

    b[0] as int + 256 * (b[1] as int)
  }

  /** `b * n` on a one-byte string. */
  function Repeat(b: byte, n: nat): (r: bytes)
    ensures |r| == n && forall i | 0 <= i < n :: r[i] == b
  {
    seq(n, _ => b)
  }

  /** Concatenation of a list of byte strings, `b"".join(parts)`. */
  function Join(parts: seq<bytes>): bytes {
    if parts == [] then [] else Join(parts[..|parts| - 1]) + parts[|parts| - 1]
  }

  lemma {:induction false} JoinConcat(a: seq<bytes>, b: seq<bytes>)
    ensures Join(a + b) == Join(a) + Join(b)
  {
    if b == [] {
      assert a + b == a;
    } else {
      var front := b[..|b| - 1];
      assert (a + b)[..|a + b| - 1] == a + front;
      JoinConcat(a, front);
    }
  }

  lemma {:induction false} JoinLength(parts: seq<bytes>, n: nat)
    requires forall i | 0 <= i < |parts| :: |parts[i]| == n
    ensures |Join(parts)| == |parts| * n
  {
    if parts != [] {
      JoinLength(parts[..|parts| - 1], n);
      assert (|parts| - 1) * n + n == |parts| * n;
    }
  }

  /** `d[:n]` and `d[n:]`. */
  function Take(d: bytes, n: nat): (t: bytes)
    ensures |t| <= n
  {
    if |d| <= n then d else d[..n]
  }

  function Drop(d: bytes, n: nat): (t: bytes)
    ensures Take(d, n) + t == d
    ensures |t| == if |d| <= n then 0 else |d| - n
  {
    if |d| <= n then [] else d[n..]
  }

  lemma DropNone(d: bytes)
    ensures Drop(d, 0) == d
  {}

  lemma DropAll(d: bytes, n: nat)
    ensures Drop(d, n) == [] <==> |d| <= n
  {}

  lemma DropDrop(d: bytes, m: nat, n: nat)
    ensures Drop(Drop(d, m), n) == Drop(d, m + n)
  {}

  /** `[d[i:i + n] for i in range(0, len(d), n)]`: all chunks are full but the last. */
  function Chunks(d: bytes, n: nat): (c: seq<bytes>)
    requires n > 0
    ensures c == [] <==> d == []
    ensures forall i | 0 <= i < |c| :: 0 < |c[i]| <= n
    ensures forall i | 0 <= i < |c| - 1 :: |c[i]| == n
    decreases |d|
  {
    if d == [] then [] else [Take(d, n)] + Chunks(Drop(d, n), n)
  }

  /** As many chunks as it takes: the quotient, rounded up. */
  lemma {:induction false} ChunksCount(d: bytes, n: nat)
    requires n > 0
    ensures |d| <= |Chunks(d, n)| * n && (d != [] ==> (|Chunks(d, n)| - 1) * n < |d|)
    decreases |d|
  {
    if d != [] {
      var rest := Chunks(Drop(d, n), n);
      ChunksCount(Drop(d, n), n);
      assert (|rest| + 1) * n == |rest| * n + n;
      assert (|rest| - 1) * n == |rest| * n - n;
    }
  }

  /** `d[at:at + n]`. */
  function Slice(d: bytes, at: nat, n: nat): (s: bytes)
    ensures |s| <= n && |s| == if at + n <= |d| then n else if at <= |d| then |d| - at else 0
    ensures forall k | 0 <= k < |s| :: s[k] == d[at + k]
  {
    Take(Drop(d, at), n)
  }

  /** Chunk `i` starts at `n * i`. */
  lemma {:induction false} ChunkAt(d: bytes, n: nat, i: nat)
    requires n > 0 && i < |Chunks(d, n)|
    ensures n * i < |d| && Chunks(d, n)[i] == Slice(d, n * i, n)
    decreases |d|
  {
    hide Chunks, Slice;
    ChunksOpen(d, n, i);
    if i == 0 {
      assert n * 0 == 0;
    } else {
      ChunkAt(Drop(d, n), n, i - 1);
      Times(n, i);
      SliceOfDrop(d, n, n * (i - 1), n);
    }
  }

  lemma ChunksOpen(d: bytes, n: nat, i: nat)
    requires n > 0 && i < |Chunks(d, n)|
    ensures 0 < |d| && (i == 0 ==> Chunks(d, n)[i] == Slice(d, 0, n))
    ensures i > 0 ==> i - 1 < |Chunks(Drop(d, n), n)| && Chunks(d, n)[i] == Chunks(Drop(d, n), n)[i - 1]
    ensures i > 0 ==> |Drop(d, n)| == if |d| <= n then 0 else |d| - n
  {
    DropNone(d);
  }

  lemma SliceOfDrop(d: bytes, n: nat, at: nat, m: nat)
    ensures Slice(Drop(d, n), at, m) == Slice(d, n + at, m)
  {
    DropDrop(d, n, at);
  }

  lemma Times(n: nat, i: nat)
    requires i > 0
    ensures n * i == n + n * (i - 1)
  {}

  lemma ChunksStep(done: seq<bytes>, d: bytes, n: nat)
    requires n > 0 && d != []
    ensures done + Chunks(d, n) == (done + [Take(d, n)]) + Chunks(Drop(d, n), n)
  {
    assert Chunks(d, n) == [Take(d, n)] + Chunks(Drop(d, n), n);
  }

  lemma {:induction false} JoinFront(head: bytes, rest: seq<bytes>)
    ensures Join([head] + rest) == head + Join(rest)
  {
    JoinConcat([head], rest);
    assert Join([head]) == head by { assert [head][..0] == []; }
  }

  lemma {:induction false} JoinChunks(d: bytes, n: nat)
    requires n > 0
    ensures Join(Chunks(d, n)) == d
    decreases |d|
  {
    if d != [] {
      JoinChunks(Drop(d, n), n);
      JoinFront(Take(d, n), Chunks(Drop(d, n), n));
    }
  }
}
