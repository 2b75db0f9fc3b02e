/** The CRCs as the rest of the protocol uses them: two wire bytes of a byte string. The register
    arithmetic of module Crc16 stays behind these functions and lemmas. */
module Checksums {
  import opened Bytes
  import Crc16

  /** The bit pattern of a byte, counted up so that its value is known by recursion. */
  function Octet(b: byte): (o: Crc16.octet)
    ensures o as int == b
  {
    if b == 0 then 0 else Octet(b - 1) + 1
  }

  function Octets(d: bytes): (o: Crc16.octets)
    ensures |o| == |d|
  {
    seq(|d|, i requires 0 <= i < |d| => Octet(d[i]))
  }

  function FromOctets(o: Crc16.octets): (d: bytes)
    ensures |d| == |o|
  {
    seq(|o|, i requires 0 <= i < |o| => o[i] as int)
  }

  /** `crc16_xmodem(d).to_bytes(2, "big")`. */
  function XmodemCrc(d: bytes): (w: bytes)
    ensures |w| == 2
  {
    FromOctets(Crc16.Wire(Crc16.Xmodem, Crc16.Crc(Crc16.Xmodem, 0, Octets(d))))
  }

  /** `crc16_aqara(d).to_bytes(2, "little")`. */
  function AqaraCrc(d: bytes): (w: bytes)
    ensures |w| == 2
  {
    FromOctets(Crc16.Wire(Crc16.Reflected, Crc16.Crc(Crc16.Reflected, 0, Octets(d))))
  }

  /** The CRC of the auth header is the only pair of bytes that, appended, drives the register from 0 back to 0. */
  lemma AqaraCrcExactly(d: bytes, w: bytes)
    requires |w| == 2
    ensures w == AqaraCrc(d) <==> Crc16.Crc(Crc16.Reflected, 0, Octets(d + w)) == 0
  {
    hide Crc16.Crc, Crc16.Wire, Octet;
    var c := Crc16.Wire(Crc16.Reflected, Crc16.Crc(Crc16.Reflected, 0, Octets(d)));
    OctetsConcat(d, w);
    assert Octets(w) == [Octet(w[0]), Octet(w[1])];
    Crc16.Residue(Crc16.Reflected, 0, Octets(d), Octet(w[0]), Octet(w[1]));
    FromOctetsInverse(c);
    if Octets(w) == c {
      OctetsInjective(w, AqaraCrc(d));
    }
  }

  /** `valid_crc` of protocol.py. */
  predicate ValidCrc(d: bytes) {
    Crc16.ValidCrc(Octets(d))
  }

  lemma OctetsConcat(a: bytes, b: bytes)
    ensures Octets(a + b) == Octets(a) + Octets(b)
  {
    hide Octet;
  }

  lemma OctetsInjective(a: bytes, b: bytes)
    requires Octets(a) == Octets(b)
    ensures a == b
  {
    hide Octet;
    forall i | 0 <= i < |a| ensures a[i] == b[i] {
      assert Octets(a)[i] == Octets(b)[i];
    }
  }

  lemma FromOctetsInverse(o: Crc16.octets)
    ensures Octets(FromOctets(o)) == o
  {
    hide Octet;
    forall i | 0 <= i < |o| ensures Octet(FromOctets(o)[i]) == o[i] {
      SameValue(Octet(o[i] as int), o[i]);
    }
  }

  lemma SameValue(o: Crc16.octet, p: Crc16.octet)
    requires o as int == p as int
    ensures o == p
  {}

  /** `valid_crc` accepts exactly a payload followed by the CRC that `frame_data_block` appends. */
  lemma ValidCrcIffAppended(d: bytes)
    ensures ValidCrc(d) <==> |d| >= 2 && d[|d| - 2..] == XmodemCrc(d[..|d| - 2])
  {
    hide Crc16.Crc, Crc16.Wire, Crc16.ValidCrc, Octet;
    if |d| >= 2 {
      var p, w := d[..|d| - 2], d[|d| - 2..];
      assert d == p + w;
      OctetsConcat(p, w);
      Crc16.ValidCrcExactly(Octets(d));
      assert Octets(d)[..|d| - 2] == Octets(p);
      var c := Crc16.Wire(Crc16.Xmodem, Crc16.Crc(Crc16.Xmodem, 0, Octets(p)));
      FromOctetsInverse(c);
      if Octets(w) == c {
        OctetsInjective(w, XmodemCrc(p));
      }
      assert ValidCrc(d) <==> Octets(w) == c;
    } else {
      Crc16.ValidCrcExactly(Octets(d));
    }
  }

  /** The flipped bits are themselves a string with CRC zero. */
  predicate Invisible(x: bytes, y: bytes) {
    |x| == |y| && Crc16.Crc(Crc16.Xmodem, 0, Crc16.Xor(Octets(x), Octets(y))) == 0
  }

  /** Of the strings as long as a valid one, `valid_crc` accepts exactly those whose difference to it has CRC zero,
      whatever the valid one is. */
  lemma InvisibleExactly(x: bytes, y: bytes)
    requires ValidCrc(x) && |x| == |y|
    ensures ValidCrc(y) <==> Invisible(x, y)
  {
    hide Octet, Crc16.Crc, Crc16.Xor;
    Crc16.ValidCrcExactly(Octets(x));
    Crc16.ValidCrcExactly(Octets(y));
    Crc16.CrcXor(Crc16.Xmodem, 0, 0, 0, Octets(x), Octets(y));
    XorWithZero(Crc16.Crc(Crc16.Xmodem, 0, Crc16.Xor(Octets(x), Octets(y))),
                Crc16.Crc(Crc16.Xmodem, 0, Octets(x)), Crc16.Crc(Crc16.Xmodem, 0, Octets(y)));
  }

  lemma XorWithZero(d: bv16, r: bv16, s: bv16)
    requires Crc16.IsXor(d, r, s) && r == 0
    ensures d == s
  {}

  /** `y` is `x` with an error burst of at most sixteen consecutive transmitted bits. */
  ghost predicate BurstDamage(x: bytes, y: bytes) {
    exists p: nat, low: Crc16.octet :: Crc16.Burst(Crc16.Xmodem, Octets(x), Octets(y), p, low)
  }

  /** `y` is `x` with an odd number of bits flipped. */
  predicate OddDamage(x: bytes, y: bytes) {
    |x| == |y| && Crc16.OddBits(Crc16.Xor(Octets(x), Octets(y)))
  }

  /** `valid_crc` rejects every burst of up to sixteen bits and every odd number of flipped bits. */
  lemma DamageDetected(x: bytes, y: bytes)
    requires ValidCrc(x) && x != y && (BurstDamage(x, y) || OddDamage(x, y))
    ensures !ValidCrc(y)
  {
    hide Octet, Crc16.Crc, Crc16.ValidCrc, Crc16.Burst, Crc16.OddBits;
    Crc16.ValidCrcExactly(Octets(x));
    Crc16.ValidCrcExactly(Octets(y));
    if ValidCrc(y) {
      if OddDamage(x, y) {
        Crc16.OddErrorDetected(Crc16.Xmodem, 0, Octets(x), Octets(y));
      } else {
        var p: nat, low: Crc16.octet :| Crc16.Burst(Crc16.Xmodem, Octets(x), Octets(y), p, low);
        Crc16.BurstDetected(Crc16.Xmodem, 0, Octets(x), Octets(y), p, low);
        OctetsInjective(x, y);
      }
    }
  }
}
