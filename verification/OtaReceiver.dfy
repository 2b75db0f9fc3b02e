/** A reference receiver for the data channel, written from the wire format alone, and the proof
    that the transfer plan loses nothing. */
module OtaReceiver {
  import opened Bytes
  import opened Checksums
  import opened OtaFrames

  /** Index of the first `b` in `d`, or the length of `d`. */
  function Find(d: bytes, b: byte): (i: nat)
    ensures i <= |d|
    ensures b !in d[..i] && (i < |d| ==> d[i] == b)
  {
    if d == [] || d[0] == b then 0 else
      var i := Find(d[1..], b);
      assert d[..i + 1] == [d[0]] + d[1..][..i];
      i + 1
  }

  lemma {:induction false} FindFirst(a: bytes, b: byte, c: bytes)
    requires b !in a
    ensures Find(a + [b] + c, b) == |a|
  {
    if a != [] {
      assert (a + [b] + c)[1..] == a[1..] + [b] + c;
      FindFirst(a[1..], b, c);
    }
  }

  function ParseDecimal(d: bytes): Option<nat> {
    if d == [] || !(48 <= d[|d| - 1] < 58) then None else
      var digit := d[|d| - 1] - 48;
      if |d| == 1 then Some(digit) else
        match ParseDecimal(d[..|d| - 1])
        case None => None
        case Some(high) => Some(10 * high + digit)
  }

  lemma {:induction false} DecimalRoundTrip(n: nat)
    ensures ParseDecimal(Decimal(n)) == Some(n)
  {
    if n >= 10 {
      DecimalRoundTrip(n / 10);
      assert Decimal(n)[..|Decimal(n)| - 1] == Decimal(n / 10);
    }
  }

  /** What stands between the first NUL and the space after it. */
  function SizeField(payload: bytes): bytes {
    var afterName := Drop(payload, Find(payload, 0x00) + 1);
    Take(afterName, Find(afterName, 0x20))
  }

  /** The image size that a well-formed init frame declares. */
  function DeclaredSize(init: bytes): Option<nat> {
    if |init| == 4 + INIT_PAYLOAD_SIZE + 2 && init[..4] == [DATA_PREFIX, 0x01, 0x00, 0xFF] && ValidCrc(init[4..]) then
      ParseDecimal(SizeField(init[4..4 + INIT_PAYLOAD_SIZE]))
    else
      None
  }

  /** The block inside a segment whose marker, complement and CRC are right for block `seqNo`. */
  function Unframe(segment: bytes, seqNo: nat): (r: Option<bytes>)
    ensures r.Some? ==> |r.value| == BLOCK_SIZE
  {
    if |segment| == SEGMENT_SIZE && segment[0] == 0x02 && segment[1] == seqNo % 256
       && segment[1] as int + segment[2] as int == 255 && ValidCrc(segment[3..])
    then Some(segment[3..3 + BLOCK_SIZE])
    else None
  }

  /** The blocks of a stream of segments, numbered from `seqNo`. */
  function ReadImage(stream: bytes, seqNo: nat): Option<bytes> {
    if stream == [] then Some([])
    else if |stream| < SEGMENT_SIZE then None
    else
      match Unframe(stream[..SEGMENT_SIZE], seqNo)
      case None => None
      case Some(block) =>
        match ReadImage(stream[SEGMENT_SIZE..], seqNo + 1)
        case None => None
        case Some(rest) => Some(block + rest)
  }

  predicate AllPrefixed(writes: seq<bytes>) {
    forall i | 0 <= i < |writes| :: writes[i] != [] && writes[i][0] == DATA_PREFIX
  }

  function Strip(writes: seq<bytes>): (s: seq<bytes>)
    requires AllPrefixed(writes)
    ensures |s| == |writes|
    ensures forall i | 0 <= i < |s| :: s[i] == writes[i][1..]
  {
    seq(|writes|, i requires 0 <= i < |writes| => writes[i][1..])
  }

  /** What the receiver makes of all the ff91 data writes of one transfer. */
  function Receive(writes: seq<bytes>): Option<bytes> {
    if writes == [] || !AllPrefixed(writes) then None else
      match DeclaredSize(writes[0])
      case None => None
      case Some(size) =>
        match ReadImage(Join(Strip(writes[1..])), 1)
        case None => None
        case Some(image) => if size <= |image| then Some(image[..size]) else None
  }

  // ---------------------------------------------------------------- init frame

  predicate FitsInit(name: bytes, blob: bytes) {
    |name| + |Decimal(|blob|)| + 2 <= INIT_PAYLOAD_SIZE
  }

  lemma AppendedCrcIsValid(payload: bytes)
    ensures ValidCrc(payload + XmodemCrc(payload))
  {
    hide ValidCrc, XmodemCrc;
    var d := payload + XmodemCrc(payload);
    assert d[..|d| - 2] == payload && d[|d| - 2..] == XmodemCrc(payload);
    ValidCrcIffAppended(d);
  }

  /** A NUL ends the name early: the rest of it is read as the size, up to its first space. */
  function SizeInName(name: bytes): Option<nat> {
    var rest := Drop(name, Find(name, 0x00) + 1);
    if 0x20 in rest then ParseDecimal(Take(rest, Find(rest, 0x20))) else None
  }

  /** The size that an init frame announces to a receiver. */
  function Announced(name: bytes, blob: bytes): Option<nat> {
    if !FitsInit(name, blob) then None else if 0x00 in name then SizeInName(name) else Some(|blob|)
  }

  lemma {:induction false} NotDecimal(d: bytes, i: nat)
    requires i < |d| && !(48 <= d[i] < 58)
    ensures ParseDecimal(d) == None
  {
    if i < |d| - 1 {
      NotDecimal(d[..|d| - 1], i);
    }
  }

  lemma FieldAfter(head: bytes, size: bytes, tail: bytes)
    requires 0x00 !in head && 0x20 !in size
    ensures SizeField(head + [0x00] + (size + [0x20] + tail)) == size
  {
    hide Find;
    var rest := size + [0x20] + tail;
    FindFirst(head, 0x00, rest);
    assert Drop(head + [0x00] + rest, |head| + 1) == rest;
    FindFirst(size, 0x20, tail);
    assert Take(rest, |size|) == size;
  }

  lemma SplitAtFirst(d: bytes, b: byte)
    requires b in d
    ensures var i := Find(d, b); d == d[..i] + [b] + Drop(d, i + 1) && b !in d[..i]
  {
    hide Find;
    assert Find(d, b) < |d| by {
      assert d[..|d|] == d;
    }
  }

  lemma SpaceInRest(head: bytes, rest: bytes, more: bytes)
    requires 0x00 !in head && 0x20 in rest
    ensures SizeField(head + [0x00] + (rest + more)) == Take(rest, Find(rest, 0x20))
  {
    hide Find, SizeField, Drop, Take;
    var j := Find(rest, 0x20);
    SplitAtFirst(rest, 0x20);
    var d, e := rest[..j], Drop(rest, j + 1);
    Regroup(d, [0x20], e, more);
    FieldAfter(head, d, e + more);
    assert Take(rest, j) == d by { TakeIn(rest, j); }
  }

  lemma Regroup(a: bytes, b: bytes, c: bytes, d: bytes)
    ensures a + b + c + d == a + b + (c + d)
  {}

  lemma TakeIn(d: bytes, n: nat)
    requires n <= |d|
    ensures Take(d, n) == d[..n]
  {}

  lemma NoSpaceInRest(head: bytes, rest: bytes, size: bytes, tail: bytes)
    requires 0x00 !in head && 0x20 !in rest && 0x20 !in size
    ensures ParseDecimal(SizeField(head + [0x00] + (rest + [0x00] + (size + [0x20] + tail)))) == None
  {
    hide Find, SizeField, ParseDecimal;
    var field := rest + [0x00] + size;
    assert rest + [0x00] + (size + [0x20] + tail) == field + [0x20] + tail;
    FieldAfter(head, field, tail);
    NotDecimal(field, |rest|);
  }

  /** A name with a NUL in it: what is left of the name stands where the size should. */
  lemma NulInName(name: bytes, size: bytes, tail: bytes)
    requires 0x00 in name && 0x20 !in size
    ensures ParseDecimal(SizeField(name + [0x00] + (size + [0x20] + tail))) == SizeInName(name)
  {
    hide Find, ParseDecimal, SizeField, Drop, Take;
    var i := Find(name, 0x00);
    SplitAtFirst(name, 0x00);
    var head, rest, end := name[..i], Drop(name, i + 1), size + [0x20] + tail;
    assert name + [0x00] + end == head + [0x00] + (rest + [0x00] + end);
    if 0x20 in rest {
      assert rest + [0x00] + end == rest + ([0x00] + end);
      SpaceInRest(head, rest, [0x00] + end);
    } else {
      NoSpaceInRest(head, rest, size, tail);
    }
  }

  /** What the init frame announces, for any name and blob: the size exactly when the fields fit, as `ljust` does
      not truncate, and the name has no NUL. */
  lemma InitFrameAnnouncesSize(name: bytes, blob: bytes)
    ensures DeclaredSize(InitFrame(name, blob)) == Announced(name, blob)
  {
    hide ValidCrc, XmodemCrc, Find, Take, Drop, ParseDecimal, Decimal, SizeField, SizeInName;
    var init, payload := InitFrame(name, blob), InitPayload(name, blob);
    assert init[4..] == payload + XmodemCrc(payload);
    AppendedCrcIsValid(payload);
    if FitsInit(name, blob) {
      var size := Decimal(|blob|);
      var tail := Repeat(0x00, INIT_PAYLOAD_SIZE - |InitFields(name, blob)|);
      assert payload == name + [0x00] + (size + [0x20] + tail);
      assert init[4..4 + INIT_PAYLOAD_SIZE] == payload && init[..4] == [DATA_PREFIX, 0x01, 0x00, 0xFF];
      if 0x00 in name {
        NulInName(name, size, tail);
      } else {
        FieldAfter(name, size, tail);
        DecimalRoundTrip(|blob|);
      }
    }
  }

  /** The digits of a size: it reads back as the size, and has no leading zero. */
  lemma {:induction false} DecimalDigits(n: nat)
    ensures ParseDecimal(Decimal(n)) == Some(n)
    ensures Decimal(n)[0] == 48 <==> n == 0
    ensures n == 0 ==> Decimal(n) == [48]
  {
    DecimalRoundTrip(n);
    if n >= 10 {
      DecimalDigits(n / 10);
    }
  }

  /** The init frame byte by byte, when its fields fit: prefix and marker, the name, a NUL, the decimal size, a
      space, NULs up to 128 bytes, and the CRC of these 128. */
  lemma InitBytes(name: bytes, blob: bytes)
    requires |name| + |Decimal(|blob|)| + 2 <= 128
    ensures var f, n, m := InitFrame(name, blob), |name|, |Decimal(|blob|)|;
            && |f| == 134 && f[..4] == [0x11, 0x01, 0x00, 0xFF]
            && f[4..4 + n] == name && f[4 + n] == 0x00
            && ParseDecimal(f[5 + n..5 + n + m]) == Some(|blob|) && (m > 1 ==> f[5 + n] != 48)
            && f[5 + n + m] == 0x20 && (forall k | 6 + n + m <= k < 132 :: f[k] == 0x00)
            && ValidCrc(f[4..])
  {
    hide ValidCrc, XmodemCrc, ParseDecimal, Decimal;
    var f, payload := InitFrame(name, blob), InitPayload(name, blob);
    AppendedCrcIsValid(payload);
    DecimalDigits(|blob|);
    assert f[4..] == payload + XmodemCrc(payload);
    assert f[5 + |name|..5 + |name| + |Decimal(|blob|)|] == Decimal(|blob|);
    if |Decimal(|blob|)| > 1 && Decimal(|blob|)[0] == 48 {
      assert false;
    }
  }

  // ---------------------------------------------------------------- data frames

  lemma PadBytes(chunk: bytes, k: nat)
    requires |chunk| <= BLOCK_SIZE && k < 1024
    ensures |PadBlock(chunk)| == 1024 && PadBlock(chunk)[k] == if k < |chunk| then chunk[k] else 0x1a
  {}

  /** Block `i` of the image: the blob from `1024 * i` on, and 0x1a past its end. */
  lemma BlockBytes(blob: bytes, i: nat)
    requires i < |Blocks(blob)|
    ensures |Blocks(blob)[i]| == 1024
    ensures forall k | 0 <= k < 1024 ::
              Blocks(blob)[i][k] == if 1024 * i + k < |blob| then blob[1024 * i + k] else 0x1a
  {
    hide Chunks, PadBlock, Slice;
    var chunk := Chunks(blob, BLOCK_SIZE)[i];
    ChunkAt(blob, BLOCK_SIZE, i);
    forall k | 0 <= k < 1024
      ensures Blocks(blob)[i][k] == if 1024 * i + k < |blob| then blob[1024 * i + k] else 0x1a
    {
      PadBytes(chunk, k);
    }
  }

  /** The frame of block `i` byte by byte: the marker 2, the number and its complement, counted from 1 and
      wrapping in one byte, 1024 bytes of the blob padded with 0x1a, and their CRC. */
  lemma SegmentBytes(blob: bytes, i: nat)
    requires i < |DataFrames(blob)|
    ensures var f := DataFrames(blob)[i];
            && |f| == 1029 && f[0] == 0x02 && f[1] == (i + 1) % 256 && f[1] as int + f[2] as int == 255
            && (forall k | 0 <= k < 1024 ::
                  f[3..][k] == if 1024 * i + k < |blob| then blob[1024 * i + k] else 0x1a)
            && ValidCrc(f[3..])
  {
    hide ValidCrc, XmodemCrc, Blocks;
    var f, block := DataFrames(blob)[i], Blocks(blob)[i];
    BlockBytes(blob, i);
    AppendedCrcIsValid(block);
    Complement(i + 1);
    assert f[3..] == block + XmodemCrc(block);
  }

  /** A framed block is accepted under its own number, and only modulo 256. */
  lemma FrameAccepted(index: nat, expected: nat, block: bytes)
    requires |block| == BLOCK_SIZE
    ensures Unframe(FrameDataBlock(index, block), expected) ==
            if index % 256 == expected % 256 then Some(block) else None
  {
    hide ValidCrc, XmodemCrc;
    var f := FrameDataBlock(index, block);
    assert f[3..] == block + XmodemCrc(block);
    AppendedCrcIsValid(block);
    assert f[3..3 + BLOCK_SIZE] == block;
    assert f[1] == index % 256 && f[2] == (255 - index) % 256;
    Complement(index);
  }

  lemma Complement(index: nat)
    ensures index % 256 + (255 - index) % 256 == 255
  {}

  lemma StripPrefixed(chunks: seq<bytes>)
    ensures AllPrefixed(Prefixed(chunks)) && Strip(Prefixed(chunks)) == chunks
  {
    forall i | 0 <= i < |chunks| ensures Prefixed(chunks)[i][1..] == chunks[i] {}
  }

  lemma StripConcat(a: seq<bytes>, b: seq<bytes>)
    requires AllPrefixed(a) && AllPrefixed(b)
    ensures AllPrefixed(a + b) && Strip(a + b) == Strip(a) + Strip(b)
  {}

  /** Stripped of their prefixes, the writes of all groups are the frames end to end. */
  lemma {:induction false} WritesAreFrames(frames: seq<bytes>, mtu: nat)
    requires mtu > 0
    ensures AllPrefixed(Flatten(Groups(frames, mtu)))
    ensures Join(Strip(Flatten(Groups(frames, mtu)))) == Join(frames)
  {
    hide Chunks, Prefixed, Strip, Groups, Flatten, AllPrefixed;
    if frames == [] {
      NothingToSend(mtu);
    } else {
      var front, last := frames[..|frames| - 1], frames[|frames| - 1];
      assert front + [last] == frames;
      WritesAreFrames(front, mtu);
      FlattenGrow(front, last, mtu);
      StripPrefixed(Chunks(last, mtu));
      StripConcat(Flatten(Groups(front, mtu)), WriteGroup(last, mtu));
      JoinConcat(Strip(Flatten(Groups(front, mtu))), Strip(WriteGroup(last, mtu)));
      JoinChunks(last, mtu);
    }
  }

  lemma NothingToSend(mtu: nat)
    requires mtu > 0
    ensures AllPrefixed(Flatten(Groups([], mtu))) && Strip(Flatten(Groups([], mtu))) == []
  {}

  /** Reading back the frames of any blocks returns the blocks. */
  lemma {:induction false} ReadFrames(blocks: seq<bytes>, from: nat)
    requires from <= |blocks|
    requires forall i | 0 <= i < |blocks| :: |blocks[i]| == BLOCK_SIZE
    ensures ReadImage(Join(FrameAll(blocks)[from..]), from + 1) == Some(Join(blocks[from..]))
    decreases |blocks| - from
  {
    hide FrameDataBlock, Unframe, FrameAll;
    var frames := FrameAll(blocks);
    if from < |blocks| {
      ReadFrames(blocks, from + 1);
      assert frames[from..] == [frames[from]] + frames[from + 1..];
      assert blocks[from..] == [blocks[from]] + blocks[from + 1..];
      JoinFront(frames[from], frames[from + 1..]);
      JoinFront(blocks[from], blocks[from + 1..]);
      FrameAccepted(from + 1, from + 1, blocks[from]);
      var stream := Join(frames[from..]);
      assert frames[from] == FrameDataBlock(from + 1, blocks[from]);
      assert |frames[from]| == SEGMENT_SIZE;
      assert stream[..SEGMENT_SIZE] == frames[from] && stream[SEGMENT_SIZE..] == Join(frames[from + 1..]);
    }
  }

  /** The padded image starts with the blob. */
  lemma ImageStartsWithBlob(chunks: seq<bytes>)
    requires forall i | 0 <= i < |chunks| :: |chunks[i]| <= BLOCK_SIZE
    requires forall i | 0 <= i < |chunks| - 1 :: |chunks[i]| == BLOCK_SIZE
    ensures Join(chunks) <= Join(PadAll(chunks))
  {
    hide PadBlock;
    if chunks != [] {
      var front, last := chunks[..|chunks| - 1], chunks[|chunks| - 1];
      assert PadAll(chunks)[..|chunks| - 1] == PadAll(front);
      assert PadAll(front) == front by {
        forall i | 0 <= i < |front| ensures PadBlock(front[i]) == front[i] { PadFull(front[i]); }
      }
      assert last <= PadBlock(last);
    }
  }

  /** The image on the wire: the blob padded with 0x1a to a whole number of blocks. */
  lemma ImageOnTheWire(blob: bytes)
    ensures blob <= Join(Blocks(blob)) && |Join(Blocks(blob))| == |Blocks(blob)| * BLOCK_SIZE
  {
    hide Chunks, PadAll, PadBlock;
    JoinChunks(blob, BLOCK_SIZE);
    ImageStartsWithBlob(Chunks(blob, BLOCK_SIZE));
    JoinLength(Blocks(blob), BLOCK_SIZE);
  }

  /** Write `j` of a segment is 0x11 and the segment from `mtu * j` on, cut to the MTU. */
  lemma WriteBytes(segment: bytes, mtu: nat, j: nat)
    requires mtu > 0 && j < |WriteGroup(segment, mtu)|
    ensures mtu * j < |segment| && WriteGroup(segment, mtu)[j] == [0x11] + Slice(segment, mtu * j, mtu)
  {
    hide Chunks, Slice;
    ChunkAt(segment, mtu, j);
  }

  /** The plan has one group for each started kilobyte; a group holds exactly one 1029-byte segment, in as few
      writes as the MTU allows. */
  lemma PlanShape(blob: bytes, mtu: nat, i: nat)
    requires mtu > 0 && i < |DataFrames(blob)|
    ensures var groups := Groups(DataFrames(blob), mtu);
            && |groups| == (|blob| + 1023) / 1024 && groups[i] == WriteGroup(DataFrames(blob)[i], mtu)
            && AllPrefixed(groups[i]) && Join(Strip(groups[i])) == DataFrames(blob)[i]
            && (|groups[i]| - 1) * mtu < 1029 <= |groups[i]| * mtu
            && (forall j | 0 <= j < |groups[i]| :: |groups[i][j]| <= mtu + 1)
  {
    hide Chunks, Prefixed, FrameAll, Strip, AllPrefixed;
    var frame := DataFrames(blob)[i];
    ChunksCount(blob, BLOCK_SIZE);
    ChunksCount(frame, mtu);
    StripPrefixed(Chunks(frame, mtu));
    JoinChunks(frame, mtu);
  }

  /** From the writes alone the receiver rebuilds the image, for every MTU, cut to the announced size. */
  lemma ReceivesImage(blob: bytes, name: bytes, mtu: nat)
    requires mtu > 0
    ensures var image, size := Join(Blocks(blob)), Announced(name, blob);
            Receive(Writes(blob, name, mtu)) ==
            if size.Some? && size.value <= |image| then Some(image[..size.value]) else None
  {
    hide DeclaredSize, ReadImage, Strip, Join, Announced, Flatten, Groups, FrameAll, Chunks, AllPrefixed;
    var init, data := InitFrame(name, blob), Flatten(Groups(DataFrames(blob), mtu));
    var writes := Writes(blob, name, mtu);
    assert writes[0] == init && writes[1..] == data;
    WritesAreFrames(DataFrames(blob), mtu);
    OnePrefixed(init);
    StripConcat([init], data);
    InitFrameAnnouncesSize(name, blob);
    ReadFrames(Blocks(blob), 0);
    assert FrameAll(Blocks(blob))[0..] == DataFrames(blob) && Blocks(blob)[0..] == Blocks(blob);
    assert [init] + data == writes && Strip([init]) + Strip(data) == Strip(writes);
    assert Join(Strip(data)) == Join(DataFrames(blob));
    assert ReadImage(Join(Strip(writes[1..])), 1) == Some(Join(Blocks(blob)));
  }

  /** Lossless: the receiver gets the blob exactly when the init frame announces its size; for a name without
      a NUL, exactly when the init fields fit their 128 bytes. */
  lemma Lossless(blob: bytes, name: bytes, mtu: nat)
    requires mtu > 0
    ensures Receive(Writes(blob, name, mtu)) == Some(blob) <==> Announced(name, blob) == Some(|blob|)
    ensures 0x00 !in name ==> Receive(Writes(blob, name, mtu)) == if FitsInit(name, blob) then Some(blob) else None
  {
    hide Receive, Writes, Blocks, Join, Find, Drop, Take, ParseDecimal;
    ReceivesImage(blob, name, mtu);
    ImageOnTheWire(blob);
    assert Join(Blocks(blob))[..|blob|] == blob;
  }

  lemma OnePrefixed(write: bytes)
    requires write != [] && write[0] == DATA_PREFIX
    ensures AllPrefixed([write])
  {}
}
