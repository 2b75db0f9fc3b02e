/** Base64 with the standard alphabet and padding (section 4 of RFC 4648), as cloud_crypto.py uses it. */
module Base64 {
  import opened Bytes

  type sextet = v: int | 0 <= v < 64

  function Symbol(v: sextet): char {
    if v < 26 then ('A' as int + v) as char
    else if v < 52 then ('a' as int + v - 26) as char
    else if v < 62 then ('0' as int + v - 52) as char
    else if v == 62 then '+' else '/'
  }

  function Value(c: char): Option<sextet> {
    if 'A' <= c <= 'Z' then Some(c as int - 'A' as int)
    else if 'a' <= c <= 'z' then Some(c as int - 'a' as int + 26)
    else if '0' <= c <= '9' then Some(c as int - '0' as int + 52)
    else if c == '+' then Some(62) else if c == '/' then Some(63) else None
  }

  lemma ValueOfSymbol(v: sextet)
    ensures Value(Symbol(v)) == Some(v) && Symbol(v) != '=' && Value('=') == None
  {}

  function Encode(d: bytes): string
    decreases |d|
  {
    if d == [] then ""
    else if |d| == 1 then [Symbol(d[0] / 4), Symbol(d[0] % 4 * 16), '=', '=']
    else if |d| == 2 then [Symbol(d[0] / 4), Symbol(d[0] % 4 * 16 + d[1] / 16), Symbol(d[1] % 16 * 4), '=']
    else [Symbol(d[0] / 4), Symbol(d[0] % 4 * 16 + d[1] / 16), Symbol(d[1] % 16 * 4 + d[2] / 64), Symbol(d[2] % 64)]
         + Encode(d[3..])
  }

  function First(a: sextet, b: sextet): byte { a * 4 + b / 16 }

  function Second(b: sextet, c: sextet): byte { b % 16 * 16 + c / 4 }

  function Third(c: sextet, d: sextet): byte { c % 4 * 64 + d }

  /** Four symbols, of which the last group may end in padding; anything else is an error. */
  function Decode(s: string): Result<bytes>
    decreases |s|
  {
    if s == "" then Ok([])
    else if |s| < 4 then Err("Incorrect padding")
    else
      var a, b, c, d := Value(s[0]), Value(s[1]), Value(s[2]), Value(s[3]);
      if a == None || b == None then Err("Incorrect padding")
      else if |s| == 4 && s[2] == '=' && s[3] == '=' then Ok([First(a.value, b.value)])
      else if c == None then Err("Incorrect padding")
      else if |s| == 4 && s[3] == '=' then Ok([First(a.value, b.value), Second(b.value, c.value)])
      else if d == None then Err("Incorrect padding")
      else
        match Decode(s[4..])
        case Err(reason) => Err(reason)
        case Ok(rest) => Ok([First(a.value, b.value), Second(b.value, c.value), Third(c.value, d.value)] + rest)
  }

  /** The bytes of a group come back from its sextets. */
  lemma Regroup(x: byte, y: byte, z: byte)
    ensures First(x / 4, x % 4 * 16 + y / 16) == x
    ensures Second(x % 4 * 16 + y / 16, y % 16 * 4 + z / 64) == y
    ensures Third(y % 16 * 4 + z / 64, z % 64) == z
  {}

  /** ... also when the group is cut short. */
  lemma RegroupFew(x: byte, y: byte)
    ensures First(x / 4, x % 4 * 16) == x
    ensures First(x / 4, x % 4 * 16 + y / 16) == x && Second(x % 4 * 16 + y / 16, y % 16 * 4) == y
  {}

  lemma DecodeOne(p: sextet, q: sextet)
    ensures Decode([Symbol(p), Symbol(q), '=', '=']) == Ok([First(p, q)])
  {
    hide Symbol, Value, First, Second, Third;
    ValueOfSymbol(p);
    ValueOfSymbol(q);
  }

  lemma DecodeTwo(p: sextet, q: sextet, r: sextet)
    ensures Decode([Symbol(p), Symbol(q), Symbol(r), '=']) == Ok([First(p, q), Second(q, r)])
  {
    hide Symbol, Value, First, Second, Third;
    ValueOfSymbol(p);
    ValueOfSymbol(q);
    ValueOfSymbol(r);
  }

  lemma EncodeFew(x: byte, y: byte)
    ensures Encode([x]) == [Symbol(x / 4), Symbol(x % 4 * 16), '=', '=']
    ensures Encode([x, y]) == [Symbol(x / 4), Symbol(x % 4 * 16 + y / 16), Symbol(y % 16 * 4), '=']
  {
    hide Symbol;
  }

  lemma OneLeft(x: byte)
    ensures Decode(Encode([x])) == Ok([x])
  {
    hide Encode, Decode, Symbol, First;
    EncodeFew(x, 0);
    RegroupFew(x, 0);
    DecodeOne(x / 4, x % 4 * 16);
  }

  lemma TwoLeft(x: byte, y: byte)
    ensures Decode(Encode([x, y])) == Ok([x, y])
  {
    hide Encode, Decode, Symbol, First, Second;
    EncodeFew(x, y);
    RegroupFew(x, y);
    DecodeTwo(x / 4, x % 4 * 16 + y / 16, y % 16 * 4);
  }

  /** Decoding inverts encoding, for every byte string. */
  lemma {:induction false} RoundTrip(d: bytes)
    ensures Decode(Encode(d)) == Ok(d)
    decreases |d|
  {
    hide Symbol, Value, First, Second, Third;
    if |d| == 1 {
      OneLeft(d[0]);
      assert d == [d[0]];
    } else if |d| == 2 {
      TwoLeft(d[0], d[1]);
      assert d == [d[0], d[1]];
    } else if |d| > 2 {
      Regroup(d[0], d[1], d[2]);
      ValueOfSymbol(d[0] / 4);
      ValueOfSymbol(d[0] % 4 * 16 + d[1] / 16);
      ValueOfSymbol(d[1] % 16 * 4 + d[2] / 64);
      ValueOfSymbol(d[2] % 64);
      RoundTrip(d[3..]);
      assert Encode(d)[4..] == Encode(d[3..]);
      assert d == [d[0], d[1], d[2]] + d[3..];
    }
  }

  /** Visible ASCII other than the separator of the envelope. */
  predicate Clean(c: char) {
    c != '-' && 33 <= c as int <= 126
  }

  lemma SymbolClean(v: sextet)
    ensures Clean(Symbol(v)) && Clean('=')
  {}

  lemma {:induction false} EncodeClean(d: bytes)
    ensures forall i | 0 <= i < |Encode(d)| :: Clean(Encode(d)[i])
    ensures |Encode(d)| == (|d| + 2) / 3 * 4
    decreases |d|
  {
    hide Symbol, Clean;
    SymbolClean(0);
    if |d| > 0 {
      SymbolClean(d[0] / 4);
      if |d| == 1 {
        SymbolClean(d[0] % 4 * 16);
      } else {
        SymbolClean(d[0] % 4 * 16 + d[1] / 16);
        if |d| == 2 {
          SymbolClean(d[1] % 16 * 4);
        } else {
          SymbolClean(d[1] % 16 * 4 + d[2] / 64);
          SymbolClean(d[2] % 64);
          EncodeClean(d[3..]);
        }
      }
    }
  }

  /** Whole groups of letters, of which the last may end in one or two '='. */
  predicate Padded(s: string) {
    |s| % 4 == 0 && forall i | 0 <= i < |s| ::
      Value(s[i]).Some? || (s[i] == '=' && i >= |s| - 2 && s[|s| - 1] == '=')
  }

  /** Exactly such texts are decoded. */
  lemma {:induction false} DecodesPadded(s: string)
    ensures Decode(s).Ok? <==> Padded(s)
    decreases |s|
  {
    hide Value, First, Second, Third;
    PadIsNoLetter();
    if |s| == 4 {
      assert Decode("") == Ok([]);
      assert s[4..] == "";
    } else if |s| > 4 {
      DecodesPadded(s[4..]);
      assert s[4..][|s| - 5] == s[|s| - 1];
      forall i | 4 <= i < |s| ensures s[i] == s[4..][i - 4] {}
      PaddedTail(s);
    }
  }

  lemma PadIsNoLetter()
    ensures Value('=') == None
  {}

  lemma PaddedTail(s: string)
    requires |s| > 4
    ensures Padded(s) <==>
              Padded(s[4..]) && Value(s[0]).Some? && Value(s[1]).Some? && Value(s[2]).Some? && Value(s[3]).Some?
  {
    hide Value;
    PadIsNoLetter();
    if Padded(s) {
      forall i | 0 <= i < |s| - 4
        ensures Value(s[4..][i]).Some? || (s[4..][i] == '=' && i >= |s| - 6 && s[4..][|s| - 5] == '=')
      {
        assert s[4..][i] == s[i + 4];
      }
    }
    if Padded(s[4..]) {
      forall i | 4 <= i < |s| ensures Value(s[i]).Some? || (s[i] == '=' && i >= |s| - 2 && s[|s| - 1] == '=') {
        assert s[i] == s[4..][i - 4];
      }
    }
  }

  // ---------------------------------------------------------------- the text itself

  /** Table 1 of RFC 4648. */
  function Letter(v: sextet): char {
    ("ABCDEFGHIJKLM" + "NOPQRSTUVWXYZ" + "abcdefghijklm" + "nopqrstuvwxyz" + "0123456789+/")[v]
  }

  lemma SymbolIs(v: sextet)
    ensures Symbol(v) == Letter(v)
  {}

  /** The four sextets of three bytes, as one number. */
  lemma Sextets(b0: byte, b1: byte, b2: byte)
    ensures Number(b0 / 4, b0 % 4 * 16 + b1 / 16, b1 % 16 * 4 + b2 / 64, b2 % 64)
         == b0 as int * 65536 + b1 as int * 256 + b2 as int
  {}

  function Number(w: sextet, x: sextet, y: sextet, z: sextet): int {
    w as int * 262144 + x as int * 4096 + y as int * 64 + z as int
  }

  function ByteAt(d: bytes, i: nat): byte {
    if i < |d| then d[i] else 0
  }

  /** Symbol group `g` is the 24-bit number of bytes `3 * g` to `3 * g + 2`, with zeros past the end, most
      significant symbol first; symbols that stand for missing bytes alone are '='. */
  lemma {:induction false} EncodeAt(d: bytes, g: nat) returns (w: sextet, x: sextet, y: sextet, z: sextet)
    requires 3 * g < |d|
    ensures Number(w, x, y, z) ==
            d[3 * g] as int * 65536 + ByteAt(d, 3 * g + 1) as int * 256 + ByteAt(d, 3 * g + 2) as int
    ensures |Encode(d)| >= 4 * g + 4
    ensures Encode(d)[4 * g..4 * g + 4] ==
            [Letter(w), Letter(x), if |d| > 3 * g + 1 then Letter(y) else '=',
             if |d| > 3 * g + 2 then Letter(z) else '=']
    decreases |d|
  {
    hide Encode, Letter, Number;
    if g > 0 {
      w, x, y, z := EncodeAt(d[3..], g - 1);
      EncodeRest(d);
      assert Encode(d)[4 * g..4 * g + 4] == Encode(d)[4..][4 * (g - 1)..4 * (g - 1) + 4];
    } else {
      w, x, y, z := FirstGroup(d);
    }
  }

  lemma EncodeRest(d: bytes)
    requires |d| > 3
    ensures |Encode(d)| >= 4 && Encode(d)[4..] == Encode(d[3..])
  {
    hide Symbol;
  }

  lemma FirstGroup(d: bytes) returns (w: sextet, x: sextet, y: sextet, z: sextet)
    requires d != []
    ensures Number(w, x, y, z) == d[0] as int * 65536 + ByteAt(d, 1) as int * 256 + ByteAt(d, 2) as int
    ensures |Encode(d)| >= 4
    ensures Encode(d)[..4] ==
            [Letter(w), Letter(x), if |d| > 1 then Letter(y) else '=', if |d| > 2 then Letter(z) else '=']
  {
    hide Symbol, Letter, Number;
    var second, third := ByteAt(d, 1), ByteAt(d, 2);
    w, x, y, z := d[0] / 4, d[0] % 4 * 16 + second / 16, second % 16 * 4 + third / 64, third % 64;
    Sextets(d[0], second, third);
    SymbolIs(w);
    SymbolIs(x);
    SymbolIs(y);
    SymbolIs(z);
  }
}
