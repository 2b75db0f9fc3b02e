/** The three CRC-16s of the protocol: XMODEM (ota_language.py), MODBUS (ota_language.py)
    and the table-driven ARC (framing.py). MODBUS and ARC share one reflected register and
    differ only in its initial value, so two register kinds cover all three. */
module Crc16 {

  type octet = bv8

  type octets = seq<octet>

  datatype Kind = Xmodem | Reflected

  /** One clock of the XMODEM register (polynomial 0x1021) with no input bit. */
  function ShiftLeft(r: bv16): bv16 {
    if r & 0x8000 != 0 then (r << 1) ^ 0x1021 else r << 1
  }

  /** One clock of the reflected register (polynomial 0x8005, reflected 0xA001). */
  function ShiftRight(r: bv16): bv16 {
    if r & 1 != 0 then (r >> 1) ^ 0xA001 else r >> 1
  }

  function Shift(k: Kind, r: bv16): bv16 {
    if k == Xmodem then ShiftLeft(r) else ShiftRight(r)
  }

  function Shifts(k: Kind, n: nat, r: bv16): bv16 {
    if n == 0 then r else Shift(k, Shifts(k, n - 1, r))
  }

  /** Eight clocks: what one byte costs. */
  function AdvanceLeft(r: bv16): bv16 {
    ShiftLeft(ShiftLeft(ShiftLeft(ShiftLeft(ShiftLeft(ShiftLeft(ShiftLeft(ShiftLeft(r))))))))
  }

  function AdvanceRight(r: bv16): bv16 {
    ShiftRight(ShiftRight(ShiftRight(ShiftRight(ShiftRight(ShiftRight(ShiftRight(ShiftRight(r))))))))
  }

  function Advance(k: Kind, r: bv16): bv16 {
    if k == Xmodem then AdvanceLeft(r) else AdvanceRight(r)
  }

  /** Where an input octet enters the register. */
  function Inject(k: Kind, b: octet): bv16 {
    if k == Xmodem then (b as bv16) << 8 else b as bv16
  }

  function Feed(k: Kind, r: bv16, b: octet): bv16 {
    Advance(k, r ^ Inject(k, b))
  }

  /** The register after a whole message, started at `r`. */
  function Crc(k: Kind, r: bv16, data: octets): bv16 {
    if data == [] then r else Feed(k, Crc(k, r, data[..|data| - 1]), data[|data| - 1])
  }

  function High(c: bv16): octet { (c >> 8) as bv8 }

  function Low(c: bv16): octet { (c & 0xFF) as bv8 }

  function Word(high: octet, low: octet): bv16 { ((high as bv16) << 8) | (low as bv16) }

  /** The CRC as it is put on the wire: big-endian for XMODEM, little-endian for ARC. */
  function Wire(k: Kind, c: bv16): (w: octets)
    ensures |w| == 2
  {
    match k
    case Xmodem => [High(c), Low(c)]
    case Reflected => [Low(c), High(c)]
  }

  /** The last bit sent, alone, leaves the generator polynomial in the register: x^16 + x^12 + x^5 + 1, and
      x^16 + x^15 + x^2 + 1 reflected. */
  lemma Generators()
    ensures Crc(Xmodem, 0, [1]) == 0x1021
    ensures Crc(Reflected, 0, [0x80]) == 0xA001
  {
    OneOctet(Xmodem, 1);
    OneOctet(Reflected, 0x80);
    LastBit();
  }

  lemma OneOctet(k: Kind, b: octet)
    ensures Crc(k, 0, [b]) == Advance(k, 0 ^ Inject(k, b))
  {
    hide Advance, Inject;
    assert [b][..0] == [];
  }

  lemma LastBit()
    ensures AdvanceLeft(0x0100) == 0x1021 && AdvanceRight(0x0080) == 0xA001
    ensures 0 ^ Inject(Xmodem, 1) == 0x0100 && 0 ^ Inject(Reflected, 0x80) == 0x0080
  {}

  // ---------------------------------------------------------------- the loops of the source

  lemma EightShifts(k: Kind, r: bv16)
    ensures Shifts(k, 8, r) == Advance(k, r)
  {
    hide ShiftLeft, ShiftRight;
    assert Shifts(k, 8, r) == Shift(k, Shift(k, Shifts(k, 6, r)));
    assert Shifts(k, 6, r) == Shift(k, Shift(k, Shifts(k, 4, r)));
    assert Shifts(k, 4, r) == Shift(k, Shift(k, Shifts(k, 2, r)));
    assert Shifts(k, 2, r) == Shift(k, Shifts(k, 1, r));
    assert Shifts(k, 1, r) == Shift(k, Shifts(k, 0, r));
  }

  method Crc16Xmodem(data: octets) returns (crc: bv16)
    ensures crc == Crc(Xmodem, 0, data)
  {
    hide Advance, ShiftLeft;
    crc := 0;
    for i := 0 to |data|
      invariant crc == Crc(Xmodem, 0, data[..i])
    {
      crc := crc ^ ((data[i] as bv16) << 8);
      ghost var start := crc;
      for n := 0 to 8
        invariant crc == Shifts(Xmodem, n, start)
      {
        crc := ShiftLeft(crc);
      }
      EightShifts(Xmodem, start);
      assert data[..i + 1][..i] == data[..i];
    }
    assert data[..|data|] == data;
  }

  method Crc16Mijia(data: octets) returns (crc: bv16)
    ensures crc == Crc(Reflected, 0xFFFF, data)
  {
    hide Advance, ShiftRight;
    crc := 0xFFFF;
    for i := 0 to |data|
      invariant crc == Crc(Reflected, 0xFFFF, data[..i])
    {
      crc := crc ^ (data[i] as bv16);
      ghost var start := crc;
      for n := 0 to 8
        invariant crc == Shifts(Reflected, n, start)
      {
        crc := ShiftRight(crc);
      }
      EightShifts(Reflected, start);
      assert data[..i + 1][..i] == data[..i];
    }
    assert data[..|data|] == data;
  }

  method Crc16Aqara(data: octets) returns (crc: bv16)
    ensures crc == Crc(Reflected, 0, data)
  {
    hide Feed, TableFeed;
    crc := 0;
    for i := 0 to |data|
      invariant crc == Crc(Reflected, 0, data[..i])
    {
      TableStep(crc, data[i]);
      crc := TableFeed(crc, data[i]);
      assert data[..i + 1][..i] == data[..i];
    }
    assert data[..|data|] == data;
  }

  // ---------------------------------------------------------------- the 256-entry table

  function InQuad(i: octet, a0: bv16, a1: bv16, a2: bv16, a3: bv16): bv16 {
    if i & 2 == 0 then (if i & 1 == 0 then a0 else a1) else (if i & 1 == 0 then a2 else a3)
  }

  /** The entry of one table row selected by the low four bits of the index. */
  function InRow(i: octet, a0: bv16, a1: bv16, a2: bv16, a3: bv16, a4: bv16, a5: bv16, a6: bv16, a7: bv16,
      a8: bv16, a9: bv16, a10: bv16, a11: bv16, a12: bv16, a13: bv16, a14: bv16, a15: bv16): bv16 {
    if i & 8 == 0 then
      if i & 4 == 0 then InQuad(i, a0, a1, a2, a3) else InQuad(i, a4, a5, a6, a7)
    else
      if i & 4 == 0 then InQuad(i, a8, a9, a10, a11) else InQuad(i, a12, a13, a14, a15)
  }

  /** `_CRC16_TABLE[i]`, in sixteen rows of sixteen. */
  function TableEntry(i: octet): bv16 {
    match i >> 4
    case 0 => InRow(i, 0, 49345, 49537, 320, 49921, 960, 640, 49729, 50689, 1728, 1920, 51009, 1280, 50625, 50305, 1088)
    case 1 => InRow(i, 52225, 3264, 3456, 52545, 3840, 53185, 52865, 3648, 2560, 51905, 52097, 2880, 51457, 2496,
                    2176, 51265)
    case 2 => InRow(i, 55297, 6336, 6528, 55617, 6912, 56257, 55937, 6720, 7680, 57025, 57217, 8000, 56577, 7616,
                    7296, 56385)
    case 3 => InRow(i, 5120, 54465, 54657, 5440, 55041, 6080, 5760, 54849, 53761, 4800, 4992, 54081, 4352, 53697,
                    53377, 4160)
    case 4 => InRow(i, 61441, 12480, 12672, 61761, 13056, 62401, 62081, 12864, 13824, 63169, 63361, 14144, 62721,
                    13760, 13440, 62529)
    case 5 => InRow(i, 15360, 64705, 64897, 15680, 65281, 16320, 16000, 65089, 64001, 15040, 15232, 64321, 14592,
                    63937, 63617, 14400)
    case 6 => InRow(i, 10240, 59585, 59777, 10560, 60161, 11200, 10880, 59969, 60929, 11968, 12160, 61249, 11520,
                    60865, 60545, 11328)
    case 7 => InRow(i, 58369, 9408, 9600, 58689, 9984, 59329, 59009, 9792, 8704, 58049, 58241, 9024, 57601, 8640,
                    8320, 57409)
    case 8 => InRow(i, 40961, 24768, 24960, 41281, 25344, 41921, 41601, 25152, 26112, 42689, 42881, 26432, 42241,
                    26048, 25728, 42049)
    case 9 => InRow(i, 27648, 44225, 44417, 27968, 44801, 28608, 28288, 44609, 43521, 27328, 27520, 43841, 26880,
                    43457, 43137, 26688)
    case 10 => InRow(i, 30720, 47297, 47489, 31040, 47873, 31680, 31360, 47681, 48641, 32448, 32640, 48961, 32000,
                     48577, 48257, 31808)
    case 11 => InRow(i, 46081, 29888, 30080, 46401, 30464, 47041, 46721, 30272, 29184, 45761, 45953, 29504, 45313,
                     29120, 28800, 45121)
    case 12 => InRow(i, 20480, 37057, 37249, 20800, 37633, 21440, 21120, 37441, 38401, 22208, 22400, 38721, 21760,
                     38337, 38017, 21568)
    case 13 => InRow(i, 39937, 23744, 23936, 40257, 24320, 40897, 40577, 24128, 23040, 39617, 39809, 23360, 39169,
                     22976, 22656, 38977)
    case 14 => InRow(i, 34817, 18624, 18816, 35137, 19200, 35777, 35457, 19008, 19968, 36545, 36737, 20288, 36097,
                     19904, 19584, 35905)
    case _ => InRow(i, 17408, 33985, 34177, 17728, 34561, 18368, 18048, 34369, 33281, 17088, 17280, 33601, 16640,
                    33217, 32897, 16448)
  }

  /** The body of the table loop: `(crc >> 8) ^ _CRC16_TABLE[(crc ^ b) & 0xFF]`. */
  function TableFeed(crc: bv16, b: octet): bv16 {
    (crc >> 8) ^ TableEntry(Low(crc ^ (b as bv16)))
  }

  /** Every entry of the table is eight clocks of the register. */
  lemma TableIsAdvance(i: octet)
    ensures TableEntry(i) == AdvanceRight(i as bv16)
  {
    if i < 64 {
      TableQuarter0(i);
    } else if i < 128 {
      TableQuarter1(i);
    } else if i < 192 {
      TableQuarter2(i);
    } else {
      TableQuarter3(i);
    }
  }

  lemma TableQuarter0(i: octet)
    requires i >> 6 == 0
    ensures TableEntry(i) == AdvanceRight(i as bv16)
  {}

  lemma TableQuarter1(i: octet)
    requires i >> 6 == 1
    ensures TableEntry(i) == AdvanceRight(i as bv16)
  {}

  lemma TableQuarter2(i: octet)
    requires i >> 6 == 2
    ensures TableEntry(i) == AdvanceRight(i as bv16)
  {}

  lemma TableQuarter3(i: octet)
    requires i >> 6 == 3
    ensures TableEntry(i) == AdvanceRight(i as bv16)
  {}

  /** Nothing is fed back while the low octet is zero. */
  lemma HighOctetMoves(x: bv16)
    requires x & 0xFF == 0
    ensures AdvanceRight(x) == x >> 8
  {
    hide ShiftRight;
    PlainMove(x, 0);
    PlainMove(x, 1);
    PlainMove(x, 2);
    PlainMove(x, 3);
    PlainMove(x, 4);
    PlainMove(x, 5);
    PlainMove(x, 6);
    PlainMove(x, 7);
  }

  lemma PlainMove(x: bv16, n: bv4)
    requires x & 0xFF == 0 && n < 8
    ensures ShiftRight(x >> n) == x >> (n + 1)
  {
    if n < 4 {
      if n < 2 {
        if n == 0 {} else {}
      } else {
        if n == 2 {} else {}
      }
    } else {
      if n < 6 {
        if n == 4 {} else {}
      } else {
        if n == 6 {} else {}
      }
    }
  }

  lemma Halves(x: bv16) returns (high: bv16, low: bv16)
    ensures low == Low(x) as bv16
    ensures IsXor(x, high, low) && high & 0xFF == 0 && high >> 8 == x >> 8
  {
    hide IsXor, Low;
    high, low := x & 0xFF00, x & 0xFF;
    HalvesJoin(x);
    LowIsMask(x);
    HighIsMask(x);
  }

  lemma HalvesJoin(x: bv16)
    ensures IsXor(x, x & 0xFF00, x & 0xFF)
  {}

  lemma LowIsMask(x: bv16)
    ensures Low(x) as bv16 == x & 0xFF
  {}

  lemma HighIsMask(x: bv16)
    ensures (x & 0xFF00) & 0xFF == 0
    ensures (x & 0xFF00) >> 8 == x >> 8
  {}

  lemma UpperSame(r: bv16, b: octet)
    ensures (r ^ (b as bv16)) >> 8 == r >> 8
  {}

  lemma AdvanceRightXor(d: bv16, r: bv16, s: bv16)
    requires IsXor(d, r, s)
    ensures IsXor(AdvanceRight(d), AdvanceRight(r), AdvanceRight(s))
  {
    hide AdvanceRight, AdvanceLeft, IsXor;
    AdvanceXor(Reflected, d, r, s);
  }

  lemma Recombine(whole: bv16, high: bv16, low: bv16, moved: bv16)
    requires IsXor(whole, high, low) && high == moved
    ensures whole == moved ^ low
  {}

  /** The high octet of the register moves down, and the table takes care of the low one. */
  lemma SplitAdvance(x: bv16, high: bv16, low: bv16, moved: bv16)
    requires IsXor(x, high, low) && high & 0xFF == 0 && high >> 8 == moved
    ensures AdvanceRight(x) == moved ^ AdvanceRight(low)
  {
    hide AdvanceRight, IsXor;
    HighOctetMoves(high);
    AdvanceRightXor(x, high, low);
    Recombine(AdvanceRight(x), AdvanceRight(high), AdvanceRight(low), moved);
  }

  lemma SplitWhole(x: bv16, moved: bv16)
    requires x >> 8 == moved
    ensures AdvanceRight(x) == moved ^ AdvanceRight(Low(x) as bv16)
  {
    hide AdvanceRight, IsXor, Low;
    var high, low := Halves(x);
    SplitAdvance(x, high, low, moved);
  }

  lemma EntryStep(fed: bv16, x: bv16, moved: bv16, entry: bv16)
    requires fed == AdvanceRight(x) && x >> 8 == moved && entry == AdvanceRight(Low(x) as bv16)
    ensures moved ^ entry == fed
  {
    hide AdvanceRight, Low;
    SplitWhole(x, moved);
  }

  lemma FeedRight(r: bv16, b: octet, x: bv16)
    requires x == r ^ (b as bv16)
    ensures Feed(Reflected, r, b) == AdvanceRight(x)
  {
    hide AdvanceRight, AdvanceLeft;
  }

  lemma TableFeedAt(r: bv16, b: octet, i: octet, moved: bv16)
    requires i == Low(r ^ (b as bv16)) && moved == r >> 8
    ensures TableFeed(r, b) == moved ^ TableEntry(i)
  {
    hide TableEntry, Low;
  }

  lemma Mix(r: bv16, b: octet) returns (x: bv16, i: octet, moved: bv16)
    ensures x == r ^ (b as bv16) && i == Low(x) && moved == r >> 8 && x >> 8 == moved
  {
    hide Low;
    UpperSame(r, b);
    x, moved := r ^ (b as bv16), r >> 8;
    i := Low(x);
  }

  /** One step of the table loop is one byte through the register. */
  lemma TableStep(r: bv16, b: octet)
    ensures TableFeed(r, b) == Feed(Reflected, r, b)
  {
    hide AdvanceRight, Low, Feed, TableEntry, TableFeed;
    var x, i, moved := Mix(r, b);
    TableFeedAt(r, b, i, moved);
    FeedRight(r, b, x);
    TableIsAdvance(i);
    EntryStep(Feed(Reflected, r, b), x, moved, TableEntry(i));
  }

  // ---------------------------------------------------------------- linearity and injectivity

  function Xor(a: octets, b: octets): (c: octets)
    requires |a| == |b|
    ensures |c| == |a|
  {
    seq(|a|, i requires 0 <= i < |a| => a[i] ^ b[i])
  }

  /** `d` is the difference of the register values `r` and `s`. */
  predicate IsXor(d: bv16, r: bv16, s: bv16) {
    d == r ^ s
  }

  /** The bit that one clock shifts out, the plain move of the others, and the feedback. */
  predicate Out(k: Kind, r: bv16) {
    if k == Xmodem then r & 0x8000 != 0 else r & 1 != 0
  }

  function Move(k: Kind, r: bv16): bv16 {
    if k == Xmodem then r << 1 else r >> 1
  }

  function Feedback(k: Kind): bv16 {
    if k == Xmodem then 0x1021 else 0xA001
  }

  lemma ShiftForm(k: Kind, r: bv16)
    ensures Shift(k, r) == Fold(Out(k, r), Move(k, r), Feedback(k))
  {
    hide ShiftLeft, ShiftRight, Fold;
    if k == Xmodem {
      ShiftLeftForm(r);
    } else {
      ShiftRightForm(r);
    }
  }

  lemma ShiftLeftForm(r: bv16)
    ensures ShiftLeft(r) == Fold(r & 0x8000 != 0, r << 1, 0x1021)
  {
    if r & 0x8000 != 0 {} else {}
  }

  lemma ShiftRightForm(r: bv16)
    ensures ShiftRight(r) == Fold(r & 1 != 0, r >> 1, 0xA001)
  {
    if r & 1 != 0 {} else {}
  }

  function Fold(out: bool, moved: bv16, feedback: bv16): bv16 {
    if out then moved ^ feedback else moved
  }

  lemma OutXor(k: Kind, d: bv16, r: bv16, s: bv16)
    requires IsXor(d, r, s)
    ensures Out(k, d) == (Out(k, r) != Out(k, s))
  {
    if k == Xmodem {} else {}
  }

  lemma MoveXor(k: Kind, d: bv16, r: bv16, s: bv16)
    requires IsXor(d, r, s)
    ensures IsXor(Move(k, d), Move(k, r), Move(k, s))
  {
    if k == Xmodem {} else {}
  }

  lemma FoldOfXor(x: bool, y: bool, m: bv16, n: bv16, f: bv16)
    ensures Fold(x != y, m ^ n, f) == Fold(x, m, f) ^ Fold(y, n, f)
  {
    if x {
      if y {} else {}
    } else {
      if y {} else {}
    }
  }

  lemma FoldXor(x: bool, y: bool, d: bv16, m: bv16, n: bv16, f: bv16)
    requires IsXor(d, m, n)
    ensures IsXor(Fold(x != y, d, f), Fold(x, m, f), Fold(y, n, f))
  {
    hide Fold;
    FoldOfXor(x, y, m, n, f);
  }

  lemma ShiftXor(k: Kind, d: bv16, r: bv16, s: bv16)
    requires IsXor(d, r, s)
    ensures IsXor(Shift(k, d), Shift(k, r), Shift(k, s))
  {
    hide Shift, Out, Move, Feedback, Fold, IsXor;
    ShiftForm(k, d);
    ShiftForm(k, r);
    ShiftForm(k, s);
    OutXor(k, d, r, s);
    MoveXor(k, d, r, s);
    FoldXor(Out(k, r), Out(k, s), Move(k, d), Move(k, r), Move(k, s), Feedback(k));
  }

  lemma {:induction false} ShiftsXor(k: Kind, n: nat, d: bv16, r: bv16, s: bv16)
    requires IsXor(d, r, s)
    ensures IsXor(Shifts(k, n, d), Shifts(k, n, r), Shifts(k, n, s))
  {
    hide IsXor, Shift;
    if n > 0 {
      ShiftsXor(k, n - 1, d, r, s);
      ShiftXor(k, Shifts(k, n - 1, d), Shifts(k, n - 1, r), Shifts(k, n - 1, s));
    }
  }

  lemma AdvanceXor(k: Kind, d: bv16, r: bv16, s: bv16)
    requires IsXor(d, r, s)
    ensures IsXor(Advance(k, d), Advance(k, r), Advance(k, s))
  {
    hide IsXor, Advance, Shifts;
    ShiftsXor(k, 8, d, r, s);
    EightShifts(k, d);
    EightShifts(k, r);
    EightShifts(k, s);
  }

  lemma InjectXor(k: Kind, d: bv16, r: bv16, s: bv16, a: octet, b: octet)
    requires IsXor(d, r, s)
    ensures IsXor(d ^ Inject(k, a ^ b), r ^ Inject(k, a), s ^ Inject(k, b))
  {
    if k == Xmodem {} else {}
  }

  lemma FeedXor(k: Kind, d: bv16, r: bv16, s: bv16, a: octet, b: octet)
    requires IsXor(d, r, s)
    ensures IsXor(Feed(k, d, a ^ b), Feed(k, r, a), Feed(k, s, b))
  {
    hide IsXor, Advance, Inject;
    InjectXor(k, d, r, s, a, b);
    AdvanceXor(k, d ^ Inject(k, a ^ b), r ^ Inject(k, a), s ^ Inject(k, b));
  }

  /** The register is linear in its start value and the message together. */
  lemma {:induction false} CrcXor(k: Kind, d: bv16, r: bv16, s: bv16, a: octets, b: octets)
    requires |a| == |b| && IsXor(d, r, s)
    ensures IsXor(Crc(k, d, Xor(a, b)), Crc(k, r, a), Crc(k, s, b))
  {
    hide IsXor, Feed;
    if a != [] {
      var n := |a| - 1;
      CrcXor(k, d, r, s, a[..n], b[..n]);
      assert Xor(a, b)[..n] == Xor(a[..n], b[..n]);
      FeedXor(k, Crc(k, d, Xor(a[..n], b[..n])), Crc(k, r, a[..n]), Crc(k, s, b[..n]), a[n], b[n]);
    }
  }

  function Zeros(n: nat): octets {
    seq(n, _ => 0)
  }

  /** MODBUS is ARC plus the CRC that MODBUS gives to as many zero octets. */
  lemma MijiaIsAqaraPlusZeros(data: octets)
    ensures Crc(Reflected, 0xFFFF, data) == Crc(Reflected, 0, data) ^ Crc(Reflected, 0xFFFF, Zeros(|data|))
  {
    var zeros := Zeros(|data|);
    CrcXor(Reflected, 0xFFFF, 0, 0xFFFF, data, zeros);
    assert Xor(data, zeros) == data by {
      forall i | 0 <= i < |data| ensures data[i] ^ zeros[i] == data[i] {}
    }
  }

  lemma ShiftKernel(k: Kind, r: bv16)
    requires Shift(k, r) == 0
    ensures r == 0
  {
    if k == Xmodem {} else {}
  }

  lemma XorZero(r: bv16, s: bv16)
    ensures r ^ s == 0 <==> r == s
  {}

  lemma ShiftInjective(k: Kind, r: bv16, s: bv16)
    requires Shift(k, r) == Shift(k, s)
    ensures r == s
  {
    hide Shift;
    XorZero(r, s);
    XorZero(Shift(k, r), Shift(k, s));
    ShiftXor(k, r ^ s, r, s);
    ShiftKernel(k, r ^ s);
  }

  lemma {:induction false} ShiftsInjective(k: Kind, n: nat, r: bv16, s: bv16)
    requires Shifts(k, n, r) == Shifts(k, n, s)
    ensures r == s
  {
    hide Shift;
    if n > 0 {
      ShiftInjective(k, Shifts(k, n - 1, r), Shifts(k, n - 1, s));
      ShiftsInjective(k, n - 1, r, s);
    }
  }

  lemma FeedInjective(k: Kind, r: bv16, s: bv16, b: octet)
    requires Feed(k, r, b) == Feed(k, s, b)
    ensures r == s
  {
    hide Shifts, Advance, Inject;
    EightShifts(k, r ^ Inject(k, b));
    EightShifts(k, s ^ Inject(k, b));
    ShiftsInjective(k, 8, r ^ Inject(k, b), s ^ Inject(k, b));
    assert (r ^ Inject(k, b)) ^ Inject(k, b) == r && (s ^ Inject(k, b)) ^ Inject(k, b) == s;
  }

  lemma {:induction false} CrcInjective(k: Kind, r: bv16, s: bv16, data: octets)
    requires Crc(k, r, data) == Crc(k, s, data)
    ensures r == s
  {
    hide Feed;
    if data != [] {
      var n := |data| - 1;
      FeedInjective(k, Crc(k, r, data[..n]), Crc(k, s, data[..n]), data[n]);
      CrcInjective(k, r, s, data[..n]);
    }
  }

  lemma {:induction false} CrcConcat(k: Kind, r: bv16, a: octets, b: octets)
    ensures Crc(k, r, a + b) == Crc(k, Crc(k, r, a), b)
  {
    hide Feed;
    if b == [] {
      assert a + b == a;
    } else {
      var n := |b| - 1;
      assert (a + b)[..|a + b| - 1] == a + b[..n];
      CrcConcat(k, r, a, b[..n]);
    }
  }

  // ---------------------------------------------------------------- error detection

  lemma CrcOfTwo(k: Kind, r: bv16, a: octet, b: octet)
    ensures Crc(k, r, [a, b]) == Feed(k, Feed(k, r, a), b)
  {
    hide Feed;
    assert [a, b][..1] == [a] && [a][..0] == [];
    assert Crc(k, r, []) == r;
    assert Crc(k, r, [a]) == Feed(k, r, a);
  }

  /** The register contents that eight clocks turn into the injection of `b`. */
  function Ahead(k: Kind, b: octet): bv16 {
    if k == Xmodem then b as bv16 else (b as bv16) << 8
  }

  lemma AdvanceAhead(k: Kind, b: octet)
    ensures Advance(k, Ahead(k, b)) == Inject(k, b)
  {
    if k == Xmodem {} else {}
  }

  lemma HighLow(r: bv16, a: octet, b: octet)
    ensures r == ((a as bv16) << 8) ^ (b as bv16) <==> a == High(r) && b == Low(r)
  {}

  lemma LowHigh(r: bv16, a: octet, b: octet)
    ensures r == (a as bv16) ^ ((b as bv16) << 8) <==> a == Low(r) && b == High(r)
  {}

  lemma PairEqual<T>(a: T, b: T, c: T, d: T)
    ensures [a, b] == [c, d] <==> a == c && b == d
  {
    assert [a, b][0] == a && [a, b][1] == b && [c, d][0] == c && [c, d][1] == d;
  }

  lemma InjectAhead(k: Kind, r: bv16, a: octet, b: octet)
    ensures r == Inject(k, a) ^ Ahead(k, b)
       <==> if k == Xmodem then a == High(r) && b == Low(r) else a == Low(r) && b == High(r)
  {
    hide High, Low;
    if k == Xmodem {
      HighLow(r, a, b);
    } else {
      LowHigh(r, a, b);
    }
  }

  lemma WireSplits(k: Kind, r: bv16, a: octet, b: octet)
    ensures [a, b] == Wire(k, r) <==> r == Inject(k, a) ^ Ahead(k, b)
  {
    hide High, Low, Inject, Ahead;
    InjectAhead(k, r, a, b);
    if k == Xmodem {
      PairEqual(a, b, High(r), Low(r));
    } else {
      PairEqual(a, b, Low(r), High(r));
    }
  }

  lemma Cancel(a: bv16, b: bv16)
    ensures (a ^ b) ^ a == b
  {}

  lemma WireDrains(k: Kind, a: octet, b: octet)
    ensures Feed(k, Feed(k, Inject(k, a) ^ Ahead(k, b), a), b) == 0
  {
    hide Advance, Inject, Ahead;
    Cancel(Inject(k, a), Ahead(k, b));
    AdvanceAhead(k, b);
    assert Feed(k, Inject(k, a) ^ Ahead(k, b), a) == Inject(k, b);
    XorZero(Inject(k, b), Inject(k, b));
    AdvanceZero(k);
  }

  lemma AdvanceZero(k: Kind)
    ensures Advance(k, 0) == 0
  {}

  lemma TwoBytesDrain(k: Kind, r: bv16, a: octet, b: octet)
    ensures Feed(k, Feed(k, r, a), b) == 0 <==> [a, b] == Wire(k, r)
  {
    hide Feed, Inject, Ahead, Wire;
    var w := Inject(k, a) ^ Ahead(k, b);
    WireSplits(k, r, a, b);
    WireDrains(k, a, b);
    if Feed(k, Feed(k, r, a), b) == 0 {
      FeedInjective(k, Feed(k, r, a), Feed(k, w, a), b);
      FeedInjective(k, r, w, a);
    }
  }

  /** Two trailing octets drive the register to zero exactly when they are its value in wire order. */
  lemma Residue(k: Kind, r: bv16, data: octets, a: octet, b: octet)
    ensures Crc(k, r, data + [a, b]) == 0 <==> [a, b] == Wire(k, Crc(k, r, data))
  {
    hide Feed, Wire;
    CrcConcat(k, r, data, [a, b]);
    CrcOfTwo(k, Crc(k, r, data), a, b);
    TwoBytesDrain(k, Crc(k, r, data), a, b);
  }

  /** The three-octet difference `e0 e1 e2` fits in sixteen consecutive transmitted bits: `low` is
      the mask of the bits of `e0` sent last, and `e2` only has bits sent before those. */
  predicate Within16(k: Kind, low: octet, e0: octet, e1: octet, e2: octet) {
    && low & (low + 1) == 0
    && if k == Xmodem then e0 & !low == 0 && e2 & low == 0 else e0 & low == 0 && e2 & !low == 0
  }

  lemma BurstHead(k: Kind, low: octet, e0: octet, e1: octet, e2: octet)
    requires Within16(k, low, e0, e1, e2)
    requires Advance(k, Inject(k, e0)) == Inject(k, e1) ^ Ahead(k, e2)
    ensures e0 == 0 && e1 == 0 && e2 == 0
  {
    if k == Xmodem {} else {}
  }

  lemma BurstKernel(k: Kind, low: octet, e0: octet, e1: octet, e2: octet)
    requires Within16(k, low, e0, e1, e2)
    requires Feed(k, Feed(k, Feed(k, 0, e0), e1), e2) == 0
    ensures e0 == 0 && e1 == 0 && e2 == 0
  {
    hide Inject, Ahead, Advance, Wire, Within16;
    var r := Feed(k, 0, e0);
    TwoBytesDrain(k, r, e1, e2);
    WireSplits(k, r, e1, e2);
    assert 0 ^ Inject(k, e0) == Inject(k, e0);
    BurstHead(k, low, e0, e1, e2);
  }

  /** `x` and `y` differ, and only inside the window of three octets at `p`, within sixteen
      consecutive transmitted bits. */
  predicate Burst(k: Kind, x: octets, y: octets, p: nat, low: octet) {
    && |x| == |y| && p + 3 <= |x|
    && x[..p] == y[..p] && x[p + 3..] == y[p + 3..]
    && Within16(k, low, x[p] ^ y[p], x[p + 1] ^ y[p + 1], x[p + 2] ^ y[p + 2])
  }

  /** The register after a message, by way of a window of three octets. */
  lemma CrcAround(k: Kind, r: bv16, x: octets, p: nat)
    requires p + 3 <= |x|
    ensures Crc(k, r, x) == Crc(k, Crc(k, Crc(k, r, x[..p]), x[p..p + 3]), x[p + 3..])
  {
    hide Crc;
    assert x == x[..p] + (x[p..p + 3] + x[p + 3..]);
    CrcConcat(k, r, x[..p], x[p..p + 3] + x[p + 3..]);
    CrcConcat(k, Crc(k, r, x[..p]), x[p..p + 3], x[p + 3..]);
  }

  /** Every error burst of at most sixteen bits changes the CRC, whatever its start value. */
  lemma BurstDetected(k: Kind, r: bv16, x: octets, y: octets, p: nat, low: octet)
    requires Burst(k, x, y, p, low) && Crc(k, r, x) == Crc(k, r, y)
    ensures x == y
  {
    hide Crc, Within16;
    var u, v := x[p..p + 3], y[p..p + 3];
    var s := Crc(k, r, x[..p]);
    CrcAround(k, r, x, p);
    CrcAround(k, r, y, p);
    CrcInjective(k, Crc(k, s, u), Crc(k, s, v), x[p + 3..]);
    WindowDetected(k, s, u, v, low);
    assert x == x[..p] + u + x[p + 3..] && y == y[..p] + v + y[p + 3..];
  }

  /** In particular the CRC separates any two messages that differ only inside two adjacent bytes. */
  lemma AdjacentBytesDetected(k: Kind, r: bv16, x: octets, y: octets, p: nat)
    requires |x| == |y| && p + 2 <= |x| && x[..p] == y[..p] && x[p + 2..] == y[p + 2..]
    requires Crc(k, r, x) == Crc(k, r, y)
    ensures x == y
  {
    hide Crc, Burst;
    CrcConcat(k, r, x, [0]);
    CrcConcat(k, r, y, [0]);
    TwoBytesBurst(k, x, y, p);
    BurstDetected(k, r, x + [0], y + [0], p, Mask(k));
    assert (x + [0])[..|x|] == x && (y + [0])[..|y|] == y;
  }

  /** With a zero octet after them, two adjacent bytes always lie in a window of three. */
  lemma TwoBytesBurst(k: Kind, x: octets, y: octets, p: nat)
    requires |x| == |y| && p + 2 <= |x| && x[..p] == y[..p] && x[p + 2..] == y[p + 2..]
    ensures Burst(k, x + [0], y + [0], p, Mask(k))
  {
    hide Within16;
    var u, v := x + [0], y + [0];
    assert u[..p] == x[..p] && v[..p] == y[..p];
    assert u[p + 2..] == x[p + 2..] + [0] && v[p + 2..] == y[p + 2..] + [0];
    assert u[p + 3..] == u[p + 2..][1..] && v[p + 3..] == v[p + 2..][1..];
    assert u[p + 2] == u[p + 2..][0] == v[p + 2..][0] == v[p + 2];
    TwoBytesFit(k, u[p] ^ v[p], u[p + 1] ^ v[p + 1], u[p + 2], v[p + 2]);
  }

  function Mask(k: Kind): octet {
    if k == Xmodem then 0xFF else 0
  }

  lemma TwoBytesFit(k: Kind, e0: octet, e1: octet, a: octet, b: octet)
    requires a == b
    ensures Within16(k, Mask(k), e0, e1, a ^ b)
  {
    if k == Xmodem {} else {}
  }

  lemma WindowDetected(k: Kind, s: bv16, u: octets, v: octets, low: octet)
    requires |u| == 3 && |v| == 3 && Crc(k, s, u) == Crc(k, s, v)
    requires Within16(k, low, u[0] ^ v[0], u[1] ^ v[1], u[2] ^ v[2])
    ensures u == v
  {
    hide Feed, Crc, Within16;
    XorZero(s, s);
    XorZero(Crc(k, s, u), Crc(k, s, v));
    CrcXor(k, 0, s, s, u, v);
    var e := Xor(u, v);
    CrcOfThree(k, e);
    BurstKernel(k, low, e[0], e[1], e[2]);
    OctetsEqual(u[0], v[0]);
    OctetsEqual(u[1], v[1]);
    OctetsEqual(u[2], v[2]);
  }

  lemma OctetsEqual(a: octet, b: octet)
    ensures a ^ b == 0 ==> a == b
  {}

  lemma CrcOfThree(k: Kind, e: octets)
    requires |e| == 3
    ensures Crc(k, 0, e) == Feed(k, Feed(k, Feed(k, 0, e[0]), e[1]), e[2])
  {
    hide Feed;
    assert e[..2][..1] == e[..1] && e[..1][..0] == [];
    assert Crc(k, 0, []) == 0;
    assert Crc(k, 0, e[..1]) == Feed(k, 0, e[0]);
    assert Crc(k, 0, e[..2]) == Feed(k, Crc(k, 0, e[..1]), e[1]);
  }

  // Both polynomials have an even number of terms, so the register keeps the parity of the message.

  predicate Has(r: bv16, bit: bv16) {
    r & bit != 0
  }

  /** An odd number of the four is true. */
  predicate Odd4(a: bool, b: bool, c: bool, d: bool) {
    (a != b) != (c != d)
  }

  predicate OddNibble(r: bv16, a: bv16, b: bv16, c: bv16, d: bv16) {
    Odd4(Has(r, a), Has(r, b), Has(r, c), Has(r, d))
  }

  /** The register holds an odd number of one bits. */
  predicate Odd(r: bv16) {
    Odd4(OddNibble(r, 0x1, 0x2, 0x4, 0x8), OddNibble(r, 0x10, 0x20, 0x40, 0x80),
         OddNibble(r, 0x100, 0x200, 0x400, 0x800), OddNibble(r, 0x1000, 0x2000, 0x4000, 0x8000))
  }

  /** The message holds an odd number of one bits. */
  predicate OddBits(d: octets) {
    d != [] && OddBits(d[..|d| - 1]) != Odd(d[|d| - 1] as bv16)
  }

  lemma HasXor(r: bv16, s: bv16, bit: bv16)
    requires bit & (bit - 1) == 0
    ensures Has(r ^ s, bit) == (Has(r, bit) != Has(s, bit))
  {}

  lemma NibbleXor(r: bv16, s: bv16, a: bv16, b: bv16, c: bv16, d: bv16)
    requires a & (a - 1) == 0 && b & (b - 1) == 0 && c & (c - 1) == 0 && d & (d - 1) == 0
    ensures OddNibble(r ^ s, a, b, c, d) == (OddNibble(r, a, b, c, d) != OddNibble(s, a, b, c, d))
  {
    hide Has;
    HasXor(r, s, a);
    HasXor(r, s, b);
    HasXor(r, s, c);
    HasXor(r, s, d);
  }

  lemma Odd4Xor(a: bool, b: bool, c: bool, d: bool, e: bool, f: bool, g: bool, h: bool)
    ensures Odd4(a != e, b != f, c != g, d != h) == (Odd4(a, b, c, d) != Odd4(e, f, g, h))
  {}

  lemma OddSum(r: bv16, s: bv16)
    ensures Odd(r ^ s) == (Odd(r) != Odd(s))
  {
    hide OddNibble, Odd4;
    NibbleXor(r, s, 0x1, 0x2, 0x4, 0x8);
    NibbleXor(r, s, 0x10, 0x20, 0x40, 0x80);
    NibbleXor(r, s, 0x100, 0x200, 0x400, 0x800);
    NibbleXor(r, s, 0x1000, 0x2000, 0x4000, 0x8000);
    Odd4Xor(OddNibble(r, 0x1, 0x2, 0x4, 0x8), OddNibble(r, 0x10, 0x20, 0x40, 0x80),
            OddNibble(r, 0x100, 0x200, 0x400, 0x800), OddNibble(r, 0x1000, 0x2000, 0x4000, 0x8000),
            OddNibble(s, 0x1, 0x2, 0x4, 0x8), OddNibble(s, 0x10, 0x20, 0x40, 0x80),
            OddNibble(s, 0x100, 0x200, 0x400, 0x800), OddNibble(s, 0x1000, 0x2000, 0x4000, 0x8000));
  }

  lemma OddMoveLeft(r: bv16)
    ensures Odd(r << 1) == (Odd(r) != (r & 0x8000 != 0))
  {}

  lemma OddMoveRight(r: bv16)
    ensures Odd(r >> 1) == (Odd(r) != (r & 1 != 0))
  {}

  lemma OddMove(k: Kind, r: bv16)
    ensures Odd(Move(k, r)) == (Odd(r) != Out(k, r))
  {
    hide Odd;
    OddMoveLeft(r);
    OddMoveRight(r);
  }

  lemma OddFeedback(k: Kind)
    ensures Odd(Feedback(k))
  {
    if k == Xmodem {} else {}
  }

  lemma OddShift(k: Kind, r: bv16)
    ensures Odd(Shift(k, r)) == Odd(r)
  {
    hide Shift, Out, Move, Feedback, Odd;
    ShiftForm(k, r);
    OddMove(k, r);
    OddFeedback(k);
    OddSum(Move(k, r), Feedback(k));
  }

  lemma {:induction false} OddShifts(k: Kind, n: nat, r: bv16)
    ensures Odd(Shifts(k, n, r)) == Odd(r)
  {
    hide Shift, Odd;
    if n > 0 {
      OddShifts(k, n - 1, r);
      OddShift(k, Shifts(k, n - 1, r));
    }
  }

  lemma OddInject(k: Kind, b: octet)
    ensures Odd(Inject(k, b)) == Odd(b as bv16)
  {
    if k == Xmodem {} else {}
  }

  lemma OddFeed(k: Kind, r: bv16, b: octet)
    ensures Odd(Feed(k, r, b)) == (Odd(r) != Odd(b as bv16))
  {
    hide Feed, Odd, Advance, Inject, Injected;
    OddInject(k, b);
    OddInjected(k, r, b);
    FeedIsAdvance(k, r, b);
    OddAdvance(k, Injected(k, r, b));
  }

  function Injected(k: Kind, r: bv16, b: octet): bv16 {
    r ^ Inject(k, b)
  }

  lemma OddInjected(k: Kind, r: bv16, b: octet)
    ensures Odd(Injected(k, r, b)) == (Odd(r) != Odd(Inject(k, b)))
  {
    hide Inject, Odd;
    OddSum(r, Inject(k, b));
  }

  lemma FeedIsAdvance(k: Kind, r: bv16, b: octet)
    ensures Feed(k, r, b) == Advance(k, Injected(k, r, b))
  {
    hide Advance, Inject;
  }

  lemma OddAdvance(k: Kind, r: bv16)
    ensures Odd(Advance(k, r)) == Odd(r)
  {
    hide Advance, Shifts, Odd;
    EightShifts(k, r);
    OddShifts(k, 8, r);
  }

  /** The parity of the register is the parity of its start value and the message together. */
  lemma {:induction false} CrcParity(k: Kind, r: bv16, d: octets)
    ensures Odd(Crc(k, r, d)) == (Odd(r) != OddBits(d))
  {
    hide Feed, Odd;
    if d != [] {
      var n := |d| - 1;
      CrcParity(k, r, d[..n]);
      OddFeed(k, Crc(k, r, d[..n]), d[n]);
    }
  }

  /** Every error that flips an odd number of bits changes the CRC. */
  lemma OddErrorDetected(k: Kind, r: bv16, x: octets, y: octets)
    requires |x| == |y| && OddBits(Xor(x, y))
    ensures Crc(k, r, x) != Crc(k, r, y)
  {
    hide Feed, Odd;
    XorZero(r, r);
    CrcXor(k, 0, r, r, x, y);
    CrcParity(k, 0, Xor(x, y));
    XorZero(Crc(k, r, x), Crc(k, r, y));
    assert !Odd(0) by { ZeroIsEven(); }
  }

  lemma ZeroIsEven()
    ensures !Odd(0)
  {}

  // ---------------------------------------------------------------- valid_crc

  /** protocol.py's `valid_crc`; `binascii.crc_hqx(data, 0)` is the XMODEM register. */
  predicate ValidCrc(d: octets) {
    && |d| >= 2
    && Crc(Xmodem, 0, d[..|d| - 2]) == Word(d[|d| - 2], d[|d| - 1])
  }

  lemma WordIsWire(c: bv16, a: octet, b: octet)
    ensures c == Word(a, b) <==> [a, b] == Wire(Xmodem, c)
  {
    hide Inject, Ahead, Wire;
    WireSplits(Xmodem, c, a, b);
    WordIsXor(a, b);
  }

  lemma WordIsXor(a: octet, b: octet)
    ensures Word(a, b) == Inject(Xmodem, a) ^ Ahead(Xmodem, b)
  {}

  /** `valid_crc` accepts exactly the strings that drive the register to zero, and these are
      exactly a payload followed by its own XMODEM CRC. */
  lemma ValidCrcExactly(d: octets)
    ensures ValidCrc(d) <==> |d| >= 2 && Crc(Xmodem, 0, d) == 0
    ensures |d| >= 2 ==> (ValidCrc(d) <==> d == d[..|d| - 2] + Wire(Xmodem, Crc(Xmodem, 0, d[..|d| - 2])))
  {
    hide Feed, Wire, Word;
    if |d| >= 2 {
      var p, a, b := d[..|d| - 2], d[|d| - 2], d[|d| - 1];
      assert d == p + [a, b];
      Residue(Xmodem, 0, p, a, b);
      WordIsWire(Crc(Xmodem, 0, p), a, b);
    }
  }
}
