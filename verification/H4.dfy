/** The HCI bridge firmware (main.c): the H4 deframer over its fixed buffer, fed by short reads, and the
    write loop of the other direction. */
module H4 {
  import opened Bytes

  const BUFFER := 1029

  /** `h4_header_len`: 0 for an unknown type. */
  function HeaderLen(kind: byte): (n: nat)
    ensures n <= 4 && (n == 0 <==> kind == 0 || kind > 5)
  {
    match kind
    case 1 => 3
    case 2 => 4
    case 3 => 3
    case 4 => 2
    case 5 => 4
    case _ => 0
  }

  /** `h4_payload_len`, for a packet whose header is complete. */
  function PayloadLen(pkt: bytes): nat
    requires pkt != [] && HeaderLen(pkt[0]) != 0 && |pkt| >= 1 + HeaderLen(pkt[0])
  {
    match pkt[0]
    case 1 => pkt[3]
    case 2 => FromLe16(pkt[3..5])
    case 3 => pkt[3]
    case 4 => pkt[2]
    case _ => FromLe16(pkt[3..5]) % 0x4000
  }

  function HeaderSize(pkt: bytes): nat
    requires pkt != []
  {
    1 + HeaderLen(pkt[0])
  }

  function PacketSize(pkt: bytes): (n: nat)
    requires pkt != [] && HeaderLen(pkt[0]) != 0 && |pkt| >= HeaderSize(pkt)
    ensures n >= HeaderSize(pkt)
  {
    HeaderSize(pkt) + PayloadLen(pkt)
  }

  // ---------------------------------------------------------------- the stream, taken as a whole

  datatype Parsed = Parsed(packets: seq<bytes>, partial: bytes)

  /** The packets of a stream, and the packet it ends in. Unknown type bytes are skipped one by one; of a
      packet that would not fit the buffer only the header is dropped. */
  function Parse(d: bytes): Parsed
    decreases |d|
  {
    if d == [] then Parsed([], [])
    else if HeaderLen(d[0]) == 0 then Parse(d[1..])
    else if |d| < HeaderSize(d) then Parsed([], d)
    else if PacketSize(d) > BUFFER then Parse(d[HeaderSize(d)..])
    else if |d| < PacketSize(d) then Parsed([], d)
    else
      var rest := Parse(d[PacketSize(d)..]);
      Parsed([d[..PacketSize(d)]] + rest.packets, rest.partial)
  }

  /** `a` decides how the first packet of `a + b` is framed as far as its header goes. */
  lemma SameSize(a: bytes, b: bytes)
    requires a != [] && HeaderLen(a[0]) != 0 && |a| >= HeaderSize(a)
    ensures (a + b)[0] == a[0] && PacketSize(a + b) == PacketSize(a)
  {
    var d := a + b;
    assert |a| >= 5 ==> d[3..5] == a[3..5];
  }

  /** Parsing can stop anywhere: the rest needs only the partial packet. */
  lemma {:induction false} ParseSplit(a: bytes, b: bytes)
    ensures Parse(a + b).packets == Parse(a).packets + Parse(Parse(a).partial + b).packets
    ensures Parse(a + b).partial == Parse(Parse(a).partial + b).partial
    decreases |a|
  {
    hide PayloadLen;
    if a == [] {
      assert a + b == b && [] + b == b;
    } else if HeaderLen(a[0]) == 0 {
      assert (a + b)[1..] == a[1..] + b;
      ParseSplit(a[1..], b);
    } else if |a| >= HeaderSize(a) {
      SameSize(a, b);
      hide HeaderLen, PacketSize;
      if PacketSize(a) > BUFFER {
        assert (a + b)[HeaderSize(a)..] == a[HeaderSize(a)..] + b;
        ParseSplit(a[HeaderSize(a)..], b);
      } else if |a| >= PacketSize(a) {
        assert (a + b)[PacketSize(a)..] == a[PacketSize(a)..] + b;
        assert (a + b)[..PacketSize(a)] == a[..PacketSize(a)];
        ParseSplit(a[PacketSize(a)..], b);
      }
    }
  }

  /** A packet as section 2 of Bluetooth Core Specification Vol 4 Part A has it, that fits 1029 bytes: a
      command, ACL data, synchronous data, an event, or ISO data with its 14-bit length. */
  predicate WellFormed(p: bytes) {
    && 3 <= |p| <= 1029
    && match p[0]
       case 1 => |p| >= 4 && |p| == 4 + p[3] as int
       case 2 => |p| >= 5 && |p| == 5 + p[3] as int + 256 * p[4] as int
       case 3 => |p| >= 4 && |p| == 4 + p[3] as int
       case 4 => |p| == 3 + p[2] as int
       case 5 => |p| >= 5 && |p| == 5 + (p[3] as int + 256 * p[4] as int) % 0x4000
       case _ => false
  }

  lemma WellFormedIff(p: bytes)
    ensures WellFormed(p) <==>
              p != [] && HeaderLen(p[0]) != 0 && |p| >= HeaderSize(p) && |p| == PacketSize(p) && |p| <= BUFFER
  {}

  /** Whatever the stream, what is delivered has exactly the length its header declares, and what is kept
      of an unfinished packet fits the buffer. */
  lemma {:induction false} OnlyWellFormed(d: bytes)
    ensures forall p | p in Parse(d).packets :: WellFormed(p)
    ensures |Parse(d).partial| < 1029
    decreases |d|
  {
    hide PayloadLen, WellFormed;
    if d == [] {
    } else if HeaderLen(d[0]) == 0 {
      OnlyWellFormed(d[1..]);
    } else if |d| >= HeaderSize(d) {
      var n := PacketSize(d);
      if n > BUFFER {
        OnlyWellFormed(d[HeaderSize(d)..]);
      } else if |d| >= n {
        OnlyWellFormed(d[n..]);
        assert d == d[..n] + d[n..];
        SameSize(d[..n], d[n..]);
        WellFormedIff(d[..n]);
      }
    }
  }

  /** Of a packet too long for the buffer, only the header is dropped; what follows is read as packets. */
  lemma OversizeDropsHeader(d: bytes)
    requires |d| >= 5
    requires var n := d[3] as int + 256 * d[4] as int; (d[0] == 2 && n > 1024) || (d[0] == 5 && n % 0x4000 > 1024)
    ensures Parse(d) == Parse(d[5..])
  {}

  /** A piece of a well-formed stream: a packet, or a byte outside 1..5 between packets. */
  datatype Item = Junk(b: byte) | Packet(p: bytes)

  predicate Allowed(item: Item) {
    match item
    case Junk(b) => b == 0 || b > 5
    case Packet(p) => WellFormed(p)
  }

  function Stream(items: seq<Item>): bytes {
    if items == [] then [] else
      Stream(items[..|items| - 1]) + match items[|items| - 1] case Junk(b) => [b] case Packet(p) => p
  }

  function Packets(items: seq<Item>): seq<bytes> {
    if items == [] then [] else
      Packets(items[..|items| - 1]) + match items[|items| - 1] case Junk(_) => [] case Packet(p) => [p]
  }

  /** Of a well-formed stream exactly its packets are delivered, in order; junk between them changes
      nothing, and nothing is left over. */
  lemma {:induction false} WellFormedStream(items: seq<Item>)
    requires forall i | 0 <= i < |items| :: Allowed(items[i])
    ensures Parse(Stream(items)) == Parsed(Packets(items), [])
  {
    hide PayloadLen, HeaderLen;
    if items != [] {
      var front, last := items[..|items| - 1], items[|items| - 1];
      WellFormedStream(front);
      var bytes := match last case Junk(b) => [b] case Packet(p) => p;
      ParseSplit(Stream(front), bytes);
      assert [] + bytes == bytes && Allowed(last);
      ParseItem(last);
    }
  }

  lemma ParseItem(item: Item)
    requires Allowed(item)
    ensures item.Junk? ==> Parse([item.b]) == Parsed([], [])
    ensures item.Packet? ==> Parse(item.p) == Parsed([item.p], [])
  {
    hide PayloadLen, WellFormed;
    if item.Packet? {
      WellFormedIff(item.p);
      assert item.p[|item.p|..] == [] && item.p[..|item.p|] == item.p;
    }
  }

  // ---------------------------------------------------------------- what the buffer parses to

  lemma ParseNothing(part: bytes, delivered: seq<bytes>)
    requires part == []
    ensures Parse(part) == Parsed([], []) && delivered + [] == delivered
  {}

  lemma ParseJunk(part: bytes, delivered: seq<bytes>)
    requires |part| == 1 && HeaderLen(part[0]) == 0
    ensures Parse(part) == Parsed([], []) && delivered + [] == delivered
  {}

  lemma ParseUnfinished(part: bytes, delivered: seq<bytes>)
    requires part != [] && HeaderLen(part[0]) != 0
    requires |part| < HeaderSize(part) || (|part| < PacketSize(part) && PacketSize(part) <= BUFFER)
    ensures Parse(part) == Parsed([], part) && delivered + [] == delivered
  {}

  lemma ParseOversize(part: bytes, delivered: seq<bytes>)
    requires part != [] && HeaderLen(part[0]) != 0 && |part| == HeaderSize(part) && PacketSize(part) > BUFFER
    ensures Parse(part) == Parsed([], []) && delivered + [] == delivered
  {}

  lemma ParseWhole(part: bytes, delivered: seq<bytes>)
    requires WellFormed(part)
    ensures Parse(part) == Parsed([part], [])
  {
    ParseItem(Packet(part));
  }

  // ---------------------------------------------------------------- the receiving task

  /** The driver's copy into the buffer. */
  method CopyIn(buffer: array<byte>, at: nat, data: bytes)
    requires at + |data| <= buffer.Length
    modifies buffer
    ensures buffer[..at + |data|] == old(buffer[..at]) + data
  {
    var i := 0;
    while i < |data|
      invariant i <= |data| && buffer[..at + i] == old(buffer[..at]) + data[..i]
    {
      buffer[at + i] := data[i];
      i := i + 1;
    }
  }

  class Deframer {
    const pkt: array<byte>
    var have: nat
    var input: bytes                 // what the host still has to send
    var quotas: seq<int>              // what the driver returns: at most this many bytes each time, or none
    var delivered: seq<bytes>        // the packets handed to the controller
    ghost var consumed: bytes

    constructor (input: bytes, quotas: seq<int>)
      ensures Valid() && fresh(pkt) && this.input == input && this.quotas == quotas && consumed == [] && delivered == []
    {
      pkt := new byte[BUFFER](_ => 0);
      have, this.input, this.quotas, delivered, consumed := 0, input, quotas, [], [];
    }

    /** However the input was cut into reads, what was delivered and what is in the buffer depend only on
        the bytes read so far. */
    ghost predicate Valid()
      reads this, pkt
    {
      pkt.Length == BUFFER && have <= BUFFER && Parse(consumed) == Parsed(delivered, pkt[..have])
    }

    /** The buffer is still to be parsed. */
    ghost predicate Pending()
      reads this, pkt
    {
      pkt.Length == BUFFER && have <= BUFFER &&
      var more := Parse(pkt[..have]);
      Parse(consumed) == Parsed(delivered + more.packets, more.partial)
    }

    /** `usb_serial_jtag_read_bytes(pkt + have, want, ...)`. */
    method Read(want: nat) returns (r: int)
      requires quotas != [] && want > 0 && have + want <= pkt.Length
      modifies this`input, this`quotas, this`consumed, pkt
      ensures r <= want && quotas == old(quotas)[1..]
      ensures r <= 0 ==> pkt[..] == old(pkt[..]) && input == old(input) && consumed == old(consumed)
      ensures r > 0 ==> r <= |old(input)| && input == old(input)[r..] && consumed == old(consumed) + old(input)[..r]
                        && pkt[..have + r] == old(pkt[..have]) + old(input)[..r]
    {
      r := if quotas[0] < want then quotas[0] else want;
      r := if r < |input| then r else |input|;
      quotas := quotas[1..];
      if r > 0 {
        CopyIn(pkt, have, input[..r]);
        consumed := consumed + input[..r];
        input := input[r..];
      }
    }

    /** A read, and `have` moved on by what it gave. */
    method Fill(want: nat) returns (r: int)
      requires Pending() && quotas != [] && want > 0 && have + want <= pkt.Length
      modifies this`input, this`quotas, this`consumed, this`have, pkt
      ensures Pending() && quotas == old(quotas)[1..] && consumed + input == old(consumed + input)
      ensures old(have) <= have <= old(have) + want && (r > 0 <==> have > old(have)) && old(pkt[..have]) <= pkt[..have]
    {
      hide Parse;
      ghost var part, from, before := pkt[..have], input, consumed;
      r := Read(want);
      if r > 0 {
        have := have + r;
        ParseSplit(before, from[..r]);
        ParseSplit(part, from[..r]);
        assert from == from[..r] + input;
        assert before + from == before + from[..r] + input;
        ghost var more := Parse(part);
        assert delivered + more.packets + Parse(more.partial + from[..r]).packets
            == delivered + (more.packets + Parse(more.partial + from[..r]).packets);
      }
    }

    /** `usb_rx_task`, until the driver has no more to return. */
    method RxTask()
      requires Valid() && have == 0
      modifies this, pkt
      ensures Valid() && consumed + input == old(consumed + input) && quotas == []
      ensures have < 1029 && forall p | p in delivered :: WellFormed(p)
    {
      hide Parse, PayloadLen, HeaderLen, WellFormed;
      while quotas != []
        invariant Valid() && have == 0 && consumed + input == old(consumed + input)
        decreases |quotas|
      {
        ParseNothing(pkt[..have], delivered);
        var r := Fill(1);
        if r <= 0 {
          continue;
        }
        if HeaderLen(pkt[0]) == 0 {
          ParseJunk(pkt[..1], delivered);
          have := 0;
          continue;
        }
        var hdr := 1 + HeaderLen(pkt[0]);
        while have < hdr
          invariant Pending() && 0 < have <= hdr && consumed + input == old(consumed + input)
          invariant HeaderLen(pkt[0]) != 0 && hdr == 1 + HeaderLen(pkt[0]) && |quotas| < |old(quotas)|
          decreases |quotas|
        {
          if quotas == [] {
            ParseUnfinished(pkt[..have], delivered);
            OnlyWellFormed(consumed);
            return;
          }
          ghost var kind := pkt[..have][0];
          r := Fill(hdr - have);
          assert pkt[..have][0] == kind;
        }
        var total := PacketSize(pkt[..have]);
        if total > BUFFER {
          ParseOversize(pkt[..have], delivered);
          have := 0;
          continue;
        }
        while have < total
          invariant Pending() && hdr <= have <= total && consumed + input == old(consumed + input)
          invariant HeaderLen(pkt[0]) != 0 && hdr == 1 + HeaderLen(pkt[0]) && total == PacketSize(pkt[..have])
          invariant |quotas| < |old(quotas)|
          decreases |quotas|
        {
          if quotas == [] {
            ParseUnfinished(pkt[..have], delivered);
            OnlyWellFormed(consumed);
            return;
          }
          ghost var part := pkt[..have];
          r := Fill(total - have);
          SameSize(part, pkt[..have][|part|..]);
          assert part + pkt[..have][|part|..] == pkt[..have];
        }
        WellFormedIff(pkt[..have]);
        ParseWhole(pkt[..have], delivered);
        delivered := delivered + [pkt[..total]];
        have := 0;
      }
      OnlyWellFormed(consumed);
    }

    /** Once a well-formed stream has been read, in whatever pieces, exactly its packets were delivered and
        the buffer is empty. */
    lemma DeliversExactly(items: seq<Item>)
      requires Valid() && consumed == Stream(items) && forall i | 0 <= i < |items| :: Allowed(items[i])
      ensures delivered == Packets(items) && have == 0
    {
      WellFormedStream(items);
    }

    /** Two tasks that read the same bytes in different pieces delivered the same packets, each of the length
        its header declares, and hold the same unfinished one, shorter than the buffer. */
    lemma SplitDoesNotMatter(other: Deframer)
      requires Valid() && other.Valid() && consumed == other.consumed
      ensures delivered == other.delivered && pkt[..have] == other.pkt[..other.have] && have < BUFFER
      ensures forall p | p in delivered :: WellFormed(p)
    {
      OnlyWellFormed(consumed);
    }
  }

  // ---------------------------------------------------------------- the sending task

  /** How much of an item gets out before a write fails; `quotas` is what the driver takes each time. */
  function Taken(n: nat, quotas: seq<int>): (k: nat)
    ensures k <= n
    decreases |quotas|
  {
    if n == 0 || quotas == [] || quotas[0] <= 0 then 0
    else if quotas[0] >= n then n
    else quotas[0] + Taken(n - quotas[0], quotas[1..])
  }

  /** The bytes that the driver takes up to the first write that fails. */
  function Accepted(quotas: seq<int>): nat {
    if quotas == [] || quotas[0] <= 0 then 0 else quotas[0] + Accepted(quotas[1..])
  }

  lemma {:induction false} TakenIsAccepted(n: nat, quotas: seq<int>)
    ensures Taken(n, quotas) == if Accepted(quotas) < n then Accepted(quotas) else n
    decreases |quotas|
  {
    if n != 0 && quotas != [] && 0 < quotas[0] < n {
      TakenIsAccepted(n - quotas[0], quotas[1..]);
    }
  }

  /** One round of `usb_tx_task`: a prefix of the item goes out, and all of it unless a write takes nothing;
      the rest is then dropped. */
  method TxItem(item: bytes, quotas: seq<int>) returns (out: bytes, failed: bool)
    ensures out == item[..if Accepted(quotas) < |item| then Accepted(quotas) else |item|]
    ensures failed <==> Accepted(quotas) < |item|
  {
    TakenIsAccepted(|item|, quotas);
    var off, i := 0, 0;
    assert quotas[0..] == quotas;
    while off < |item|
      invariant off <= |item| && i <= |quotas|
      invariant Taken(|item|, quotas) == off + Taken(|item| - off, quotas[i..])
      decreases |quotas| - i
    {
      if i == |quotas| || quotas[i] <= 0 {
        return item[..off], true;
      }
      assert quotas[i..][1..] == quotas[i + 1..];
      off := off + if quotas[i] < |item| - off then quotas[i] else |item| - off;
      i := i + 1;
    }
    return item[..off], false;
  }
}
