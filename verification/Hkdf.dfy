/** HKDF-Expand (cloud_crypto.py) over any HMAC with 32-byte digests. */
module Hkdf {
  import opened Bytes

  const DIGEST := 32

  type digest = d: bytes | |d| == DIGEST witness seq(DIGEST, _ => 0)

  type hmac = (bytes, bytes) -> digest

  /** T(n) of section 2.3 of RFC 5869. */
  function T(mac: hmac, prk: bytes, info: bytes, n: nat): bytes
    requires n <= 255
  {
    if n == 0 then [] else mac(prk, T(mac, prk, info, n - 1) + info + [n])
  }

  /** T(1) || ... || T(n). */
  function Stream(mac: hmac, prk: bytes, info: bytes, n: nat): (s: bytes)
    requires n <= 255
    ensures |s| == n * DIGEST
  {
    if n == 0 then [] else
      var s := Stream(mac, prk, info, n - 1) + T(mac, prk, info, n);
      assert |s| == (n - 1) * DIGEST + DIGEST;
      s
  }

  /** The number of blocks that `length` bytes take: the quotient, rounded up. */
  function BlocksFor(length: nat): (n: nat)
    ensures n * DIGEST >= length && (length > 0 ==> (n - 1) * DIGEST < length)
    ensures length <= 255 * DIGEST ==> n <= 255
  {
    (length + DIGEST - 1) / DIGEST
  }

  /** The output keying material of RFC 5869: the first `length` bytes of the stream. */
  function Okm(mac: hmac, prk: bytes, info: bytes, length: nat): (okm: bytes)
    requires length <= 255 * DIGEST
    ensures |okm| == length
  {
    Stream(mac, prk, info, BlocksFor(length))[..length]
  }

  /** The 32 bytes of block `n`, or as many of them as there are. */
  function BlockOf(okm: bytes, n: nat): bytes
    requires n > 0
  {
    Slice(okm, 32 * (n - 1), 32)
  }

  /** Each block of the output is the MAC of the block before it, the info and its own number, counted from 1. */
  predicate Chained(mac: hmac, prk: bytes, info: bytes, okm: bytes) {
    && (okm != [] ==> BlockOf(okm, 1) <= mac(prk, info + [1]))
    && forall n: nat | 1 < n <= 255 && 32 * (n - 1) < |okm| ::
         BlockOf(okm, n) <= mac(prk, BlockOf(okm, n - 1) + info + [n])
  }

  lemma OkmBlock(mac: hmac, prk: bytes, info: bytes, length: nat, n: nat)
    requires length <= 255 * DIGEST && 0 < n <= 255 && 32 * (n - 1) < length
    ensures var block := BlockOf(Okm(mac, prk, info, length), n);
            block <= T(mac, prk, info, n) && (32 * n <= length ==> block == T(mac, prk, info, n))
  {
    hide T, Stream, Okm, Slice;
    var okm := Okm(mac, prk, info, length);
    TLength(mac, prk, info, n);
    forall k | 0 <= k < |BlockOf(okm, n)| ensures BlockOf(okm, n)[k] == T(mac, prk, info, n)[k] {
      InBlock(n, k);
      OkmAt(mac, prk, info, length, 32 * (n - 1) + k);
    }
  }

  lemma InBlock(n: nat, k: nat)
    requires n > 0 && k < 32
    ensures (32 * (n - 1) + k) / DIGEST + 1 == n && (32 * (n - 1) + k) % DIGEST == k
  {}

  lemma TLength(mac: hmac, prk: bytes, info: bytes, n: nat)
    requires 0 < n <= 255
    ensures |T(mac, prk, info, n)| == 32
  {}

  lemma OkmChained(mac: hmac, prk: bytes, info: bytes, length: nat)
    requires length <= 255 * DIGEST
    ensures Chained(mac, prk, info, Okm(mac, prk, info, length))
  {
    hide Okm, BlockOf, T;
    var okm := Okm(mac, prk, info, length);
    if okm != [] {
      OkmBlock(mac, prk, info, length, 1);
      TStep(mac, prk, info, 1);
      TStep(mac, prk, info, 0);
      assert [] + info + [1] == info + [1];
    }
    forall n: nat | 1 < n <= 255 && 32 * (n - 1) < |okm|
      ensures BlockOf(okm, n) <= mac(prk, BlockOf(okm, n - 1) + info + [n])
    {
      OkmBlock(mac, prk, info, length, n);
      OkmBlock(mac, prk, info, length, n - 1);
      TStep(mac, prk, info, n);
    }
  }

  lemma TStep(mac: hmac, prk: bytes, info: bytes, n: nat)
    requires n <= 255
    ensures T(mac, prk, info, n) == if n == 0 then [] else mac(prk, T(mac, prk, info, n - 1) + info + [n])
  {}

  /** `hkdf_expand`. The counter always fits in its byte. */
  method HkdfExpand(mac: hmac, prk: bytes, info: bytes, length: int) returns (r: Result<bytes>)
    ensures r.Ok? <==> 0 < length <= 8160
    ensures r.Ok? ==> r.value == Okm(mac, prk, info, length)
    ensures r.Ok? ==> |r.value| == length && Chained(mac, prk, info, r.value)
  {
    hide Chained;
    if length <= 0 {
      return Err("length must be positive");
    }
    if length > 255 * DIGEST {
      return Err("length too large for HKDF-SHA256");
    }
    var okm: bytes, previous: bytes, counter := [], [], 1;
    while |okm| < length
      invariant 1 <= counter && counter - 1 <= BlocksFor(length)
      invariant okm == Stream(mac, prk, info, counter - 1) && previous == T(mac, prk, info, counter - 1)
      decreases length - |okm|
    {
      assert counter <= BlocksFor(length);
      previous := mac(prk, previous + info + [counter]);
      okm := okm + previous;
      counter := counter + 1;
    }
    StreamPrefix(mac, prk, info, counter - 1, BlocksFor(length));
    OkmChained(mac, prk, info, length);
    return Ok(okm[..length]);
  }

  lemma {:induction false} StreamPrefix(mac: hmac, prk: bytes, info: bytes, m: nat, n: nat)
    requires m <= n <= 255
    ensures Stream(mac, prk, info, m) <= Stream(mac, prk, info, n)
    decreases n
  {
    if m < n {
      StreamPrefix(mac, prk, info, m, n - 1);
    }
  }

  /** A shorter request gives a prefix of a longer one. */
  lemma PrefixConsistent(mac: hmac, prk: bytes, info: bytes, short: nat, long: nat)
    requires short <= long <= 255 * DIGEST
    ensures Okm(mac, prk, info, short) == Okm(mac, prk, info, long)[..short]
  {
    hide Stream;
    StreamPrefix(mac, prk, info, BlocksFor(short), BlocksFor(long));
  }

  /** Byte by byte: position `i` lies in block `i / 32 + 1`. */
  lemma {:induction false} OkmAt(mac: hmac, prk: bytes, info: bytes, length: nat, i: nat)
    requires i < length <= 255 * DIGEST
    ensures Okm(mac, prk, info, length)[i] == T(mac, prk, info, i / DIGEST + 1)[i % DIGEST]
  {
    hide T;
    var n := i / DIGEST + 1;
    StreamPrefix(mac, prk, info, n, BlocksFor(length));
    assert Stream(mac, prk, info, n) == Stream(mac, prk, info, n - 1) + T(mac, prk, info, n);
    assert Stream(mac, prk, info, n)[i] == T(mac, prk, info, n)[i - (n - 1) * DIGEST];
  }
}
