/** The bulk framing of the voice-pack transfer (ota_language.py). */
module OtaFrames {
  import opened Bytes
  import opened Checksums

  const BLOCK_SIZE: nat := 1024
  const SEGMENT_SIZE: nat := 1029
  const INIT_PAYLOAD_SIZE: nat := 128
  const DATA_PREFIX: byte := 0x11
  const PAD: byte := 0x1a

  // ---------------------------------------------------------------- sender

  function PadBlock(block: bytes): (b: bytes)
    requires |block| <= BLOCK_SIZE
    ensures |b| == BLOCK_SIZE && b[..|block|] == block
  {
    block + Repeat(PAD, BLOCK_SIZE - |block|)
  }

  /** `frame_data_block`: `seq` is 1-based and wraps in one byte. */
  function FrameDataBlock(seqNo: nat, block: bytes): (s: bytes)
    ensures |s| == |block| + 5
  {
    [0x02, seqNo % 256, (0xFF - seqNo) % 256] + block + XmodemCrc(block)
  }

  /** The blocks of an image, padded to full size. */
  function PadAll(chunks: seq<bytes>): (b: seq<bytes>)
    requires forall i | 0 <= i < |chunks| :: |chunks[i]| <= BLOCK_SIZE
    ensures |b| == |chunks|
    ensures forall i | 0 <= i < |b| :: b[i] == PadBlock(chunks[i])
  {
    seq(|chunks|, i requires 0 <= i < |chunks| => PadBlock(chunks[i]))
  }

  function FrameAll(blocks: seq<bytes>): (f: seq<bytes>)
    ensures |f| == |blocks|
    ensures forall i | 0 <= i < |f| :: f[i] == FrameDataBlock(i + 1, blocks[i])
  {
    seq(|blocks|, i requires 0 <= i < |blocks| => FrameDataBlock(i + 1, blocks[i]))
  }

  /** The 1024-byte blocks of the image as it goes on the wire. */
  function Blocks(blob: bytes): (b: seq<bytes>)
    ensures |b| == |Chunks(blob, BLOCK_SIZE)|
    ensures forall i | 0 <= i < |b| :: |b[i]| == BLOCK_SIZE
  {
    PadAll(Chunks(blob, BLOCK_SIZE))
  }

  function DataFrames(blob: bytes): (f: seq<bytes>)
    ensures |f| == |Blocks(blob)|
    ensures forall i | 0 <= i < |f| :: |f[i]| == SEGMENT_SIZE
  {
    FrameAll(Blocks(blob))
  }

  lemma FramesGrow(chunks: seq<bytes>, chunk: bytes)
    requires forall i | 0 <= i < |chunks| :: |chunks[i]| <= BLOCK_SIZE
    requires |chunk| <= BLOCK_SIZE
    ensures FrameAll(PadAll(chunks + [chunk]))
         == FrameAll(PadAll(chunks)) + [FrameDataBlock(|chunks| + 1, PadBlock(chunk))]
  {
    hide FrameDataBlock, PadBlock;
  }

  lemma PadFull(block: bytes)
    requires |block| == BLOCK_SIZE
    ensures PadBlock(block) == block
  {}

  /** `iter_data_frames`. */
  method IterDataFrames(blob: bytes) returns (frames: seq<bytes>)
    ensures frames == DataFrames(blob)
  {
    hide FrameDataBlock, FrameAll, PadAll, Chunks, Take, Drop;
    var seqNo, off := 1, 0;
    frames := [];
    ghost var done: seq<bytes> := [];
    assert Drop(blob, 0) == blob by { DropNone(blob); }
    while off < |blob|
      invariant Chunks(blob, BLOCK_SIZE) == done + Chunks(Drop(blob, off), BLOCK_SIZE)
      invariant forall i | 0 <= i < |done| :: |done[i]| <= BLOCK_SIZE
      invariant seqNo == |done| + 1 && frames == FrameAll(PadAll(done))
    {
      var block := Take(Drop(blob, off), BLOCK_SIZE);
      ghost var chunk := block;
      FramesGrow(done, chunk);
      ChunksStep(done, Drop(blob, off), BLOCK_SIZE);
      DropDrop(blob, off, BLOCK_SIZE);
      if |block| < BLOCK_SIZE {
        block := block + Repeat(PAD, BLOCK_SIZE - |block|);
      }
      assert block == PadBlock(chunk) by { if |chunk| == BLOCK_SIZE { PadFull(chunk); } }
      frames := frames + [FrameDataBlock(seqNo, block)];
      done := done + [chunk];
      seqNo := seqNo + 1;
      off := off + BLOCK_SIZE;
    }
    DropAll(blob, off);
    assert done + [] == done;
  }

  /** `str(n).encode()`. */
  function Decimal(n: nat): (d: bytes)
    ensures d != [] && forall i | 0 <= i < |d| :: 48 <= d[i] < 58
  {
    if n < 10 then [48 + n] else Decimal(n / 10) + [48 + n % 10]
  }

  /** `<name> 0x00 <decimal size> 0x20`, before `ljust` pads it. */
  function InitFields(name: bytes, blob: bytes): bytes {
    name + [0x00] + Decimal(|blob|) + [0x20]
  }

  /** `ljust` pads with NULs and never truncates. */
  function InitPayload(name: bytes, blob: bytes): bytes {
    var fields := InitFields(name, blob);
    fields + Repeat(0x00, if |fields| < INIT_PAYLOAD_SIZE then INIT_PAYLOAD_SIZE - |fields| else 0)
  }

  /** `build_ota_init_frame`. */
  function InitFrame(name: bytes, blob: bytes): bytes {
    [DATA_PREFIX, 0x01, 0x00, 0xFF] + InitPayload(name, blob) + XmodemCrc(InitPayload(name, blob))
  }

  function Prefixed(chunks: seq<bytes>): (w: seq<bytes>)
    ensures |w| == |chunks|
    ensures forall i | 0 <= i < |w| :: w[i] == [DATA_PREFIX] + chunks[i]
  {
    seq(|chunks|, i requires 0 <= i < |chunks| => [DATA_PREFIX] + chunks[i])
  }

  /** The ff91 writes of one segment. */
  function WriteGroup(segment: bytes, mtu: nat): (g: seq<bytes>)
    requires mtu > 0
    ensures g == [] <==> segment == []
    ensures forall i | 0 <= i < |g| :: 1 < |g[i]| <= mtu + 1 && g[i][0] == DATA_PREFIX
  {
    Prefixed(Chunks(segment, mtu))
  }

  function Groups(frames: seq<bytes>, mtu: nat): (g: seq<seq<bytes>>)
    requires mtu > 0
    ensures |g| == |frames|
    ensures forall i | 0 <= i < |g| :: g[i] == WriteGroup(frames[i], mtu)
  {
    seq(|frames|, i requires 0 <= i < |frames| => WriteGroup(frames[i], mtu))
  }

  function Flatten(groups: seq<seq<bytes>>): seq<bytes> {
    if groups == [] then [] else Flatten(groups[..|groups| - 1]) + groups[|groups| - 1]
  }

  /** The inner slicing loop that both `build_ota_data_plan` and `iter_ota_data_writes` run. */
  method SliceSegment(segment: bytes, mtu: nat) returns (group: seq<bytes>)
    requires mtu > 0
    ensures group == WriteGroup(segment, mtu)
  {
    hide Prefixed, Chunks, Take, Drop;
    var off := 0;
    group := [];
    ghost var done: seq<bytes> := [];
    DropNone(segment);
    PrefixedMore([], []);
    ChunksNone(Chunks(segment, mtu), mtu);
    while off < |segment|
      invariant Chunks(segment, mtu) == done + Chunks(Drop(segment, off), mtu)
      invariant group == Prefixed(done)
    {
      DropAll(segment, off);
      DropDrop(segment, off, mtu);
      ChunksStep(done, Drop(segment, off), mtu);
      var chunk := Take(Drop(segment, off), mtu);
      PrefixedMore(done, chunk);
      group := group + [[DATA_PREFIX] + chunk];
      done := done + [chunk];
      off := off + mtu;
    }
    DropAll(segment, off);
    ChunksNone(done, mtu);
  }

  lemma PrefixedMore(chunks: seq<bytes>, chunk: bytes)
    ensures Prefixed([]) == [] && Prefixed(chunks + [chunk]) == Prefixed(chunks) + [[DATA_PREFIX] + chunk]
  {}

  /** At the start and at the end of the slicing loop one side is empty. */
  lemma ChunksNone(chunks: seq<bytes>, n: nat)
    requires n > 0
    ensures Chunks([], n) == [] && chunks + [] == chunks && [] + chunks == chunks
  {}

  /** `build_ota_data_plan`. */
  method BuildOtaDataPlan(blob: bytes, name: bytes, mtu: nat) returns (init: bytes, groups: seq<seq<bytes>>)
    requires mtu > 0
    ensures init == InitFrame(name, blob)
    ensures groups == Groups(DataFrames(blob), mtu)
  {
    hide InitFrame, DataFrames, WriteGroup;
    init := InitFrame(name, blob);
    var frames := IterDataFrames(blob);
    groups := [];
    for i := 0 to |frames|
      invariant groups == Groups(frames[..i], mtu)
    {
      var group := SliceSegment(frames[i], mtu);
      groups := groups + [group];
      assert groups == Groups(frames[..i + 1], mtu);
    }
    assert frames[..|frames|] == frames;
  }

  /** The init frame, then the writes of every group of the plan. */
  function Writes(blob: bytes, name: bytes, mtu: nat): seq<bytes>
    requires mtu > 0
  {
    [InitFrame(name, blob)] + Flatten(Groups(DataFrames(blob), mtu))
  }

  /** `iter_ota_data_writes`: the init frame, then every segment sliced on its own. */
  method IterOtaDataWrites(blob: bytes, name: bytes, mtu: nat) returns (writes: seq<bytes>)
    requires mtu > 0
    ensures writes == Writes(blob, name, mtu)
  {
    hide InitFrame, DataFrames, WriteGroup, Groups, Flatten;
    var frames := IterDataFrames(blob);
    var data: seq<bytes> := [];
    FlattenNone();
    for i := 0 to |frames|
      invariant data == Flatten(Groups(frames[..i], mtu))
    {
      var group := SliceSegment(frames[i], mtu);
      FlattenGrow(frames[..i], frames[i], mtu);
      assert frames[..i] + [frames[i]] == frames[..i + 1];
      data := data + group;
    }
    assert frames[..|frames|] == frames;
    writes := [InitFrame(name, blob)] + data;
  }

  lemma FlattenNone()
    ensures forall mtu: nat | mtu > 0 :: Flatten(Groups([], mtu)) == []
  {}

  lemma FlattenGrow(frames: seq<bytes>, frame: bytes, mtu: nat)
    requires mtu > 0
    ensures Flatten(Groups(frames + [frame], mtu)) == Flatten(Groups(frames, mtu)) + WriteGroup(frame, mtu)
  {
    hide WriteGroup;
    var groups := Groups(frames + [frame], mtu);
    assert groups[..|groups| - 1] == Groups(frames, mtu);
  }
}
