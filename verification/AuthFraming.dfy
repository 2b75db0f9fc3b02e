/** Auth messages on the wire (framing.py) and the stream reader of session.py that puts them together
    again. */
module AuthFraming {
  import opened Bytes
  import Checksums

  // ---------------------------------------------------------------- messages

  datatype AuthMessage = AuthMessage(frameType: byte, appToken: nat, lockToken: nat, body: bytes)

  const HEADER := 18

  /** The message of a body: an 18-byte header with the length, the CRC of the body in the place of the
      app token, and the lock token. */
  function Message(frameType: byte, body: bytes, lockToken: nat): (m: bytes)
    requires |body| < 65536 && lockToken < 65536
    ensures |m| == HEADER + |body|
  {
    HeaderOf(frameType, body, lockToken) + body
  }

  function HeaderOf(frameType: byte, body: bytes, lockToken: nat): (h: bytes)
    requires |body| < 65536 && lockToken < 65536
    ensures |h| == HEADER
  {
    [0, frameType, 0x10, 1, 0] + Le16(|body|) + Checksums.AqaraCrc(body) + Le16(lockToken) + Repeat(0, 7)
  }

  function Built(frameType: byte, body: bytes, lockToken: int): Result<bytes> {
    if frameType != 6 && frameType != 7 then Err("frame_type no soportado")
    else if |body| >= 65536 || !(0 <= lockToken < 65536) then Err("int too big to convert")
    else Ok(Message(frameType, body, lockToken))
  }

  /** An auth message byte by byte. */
  predicate IsMessage(m: bytes, frameType: byte, body: bytes, lockToken: int) {
    && |m| == 18 + |body| && m[..5] == [0x00, frameType, 0x10, 0x01, 0x00]
    && m[5] as int + 256 * m[6] as int == |body| && m[7..9] == Checksums.AqaraCrc(body)
    && m[9] as int + 256 * m[10] as int == lockToken && m[11..18] == [0, 0, 0, 0, 0, 0, 0] && m[18..] == body
  }

  /** A message is built exactly for types 6 and 7, bodies whose length fits two bytes, and tokens that fit two. */
  lemma MessageBytes(frameType: byte, body: bytes, lockToken: int)
    ensures var r := Built(frameType, body, lockToken);
            && (r.Ok? <==> (frameType == 6 || frameType == 7) && |body| < 65536 && 0 <= lockToken < 65536)
            && (r.Ok? ==> IsMessage(r.value, frameType, body, lockToken))
  {
    hide Checksums.AqaraCrc;
  }

  function Put(s: bytes, at: nat, field: bytes): bytes
    requires |field| == 2 && at + 2 <= |s|
  {
    s[..at] + field + s[at + 2..]
  }

  /** The slice assignment `buffer[at:at + 2] = field`. */
  method PutField(buffer: array<byte>, at: nat, field: bytes)
    requires |field| == 2 && at + 2 <= buffer.Length
    modifies buffer
    ensures buffer[..] == Put(old(buffer[..]), at, field)
  {
    buffer[at], buffer[at + 1] := field[0], field[1];
  }

  lemma PutNext(front: bytes, zeros: nat, field: bytes)
    requires |field| == 2 && zeros >= 2
    ensures Put(front + Repeat(0, zeros), |front|, field) == front + field + Repeat(0, zeros - 2)
  {}

  /** `build_auth_message`; the caller's `app_token` is ignored there and is no parameter here. */
  method BuildAuthMessage(frameType: byte, body: bytes, lockToken: int) returns (r: Result<bytes>)
    ensures r == Built(frameType, body, lockToken)
    ensures r.Ok? <==> (frameType == 6 || frameType == 7) && |body| < 65536 && 0 <= lockToken < 65536
    ensures r.Ok? ==> IsMessage(r.value, frameType, body, lockToken)
  {
    hide Checksums.AqaraCrc, Le16, Put, Repeat, IsMessage;
    MessageBytes(frameType, body, lockToken);
    if frameType != 6 && frameType != 7 {
      return Err("frame_type no soportado");
    }
    var header := new byte[HEADER](_ => 0);
    header[0], header[1], header[2], header[3], header[4] := 0, frameType, 0x10, 1, 0;
    if |body| >= 65536 {
      return Err("int too big to convert");
    }
    var front := [0, frameType, 0x10, 1, 0];
    assert header[..] == front + Repeat(0, 13);
    PutField(header, 5, Le16(|body|));
    PutNext(front, 13, Le16(|body|));
    var crc := Checksums.AqaraCrc(body);
    PutField(header, 7, crc);
    PutNext(front + Le16(|body|), 11, crc);
    if !(0 <= lockToken < 65536) {
      return Err("int too big to convert");
    }
    PutField(header, 9, Le16(lockToken));
    PutNext(front + Le16(|body|) + crc, 9, Le16(lockToken));
    return Ok(header[..] + body);
  }

  /** `parse_auth_message`: the CRC is not compared with the body. */
  function ParseAuthMessage(message: bytes): Result<AuthMessage> {
    if |message| < HEADER then Err("mensaje auth incompleto") else
      var n := FromLe16(message[5..7]);
      var body := Take(message[HEADER..], n);
      if |body| != n then Err("longitud de body auth no coincide")
      else Ok(AuthMessage(message[1], FromLe16(message[7..9]), FromLe16(message[9..11]), body))
  }

  /** Parsing inverts building; the token that comes back is the CRC of the body, and bytes after the
      declared body never matter. */
  lemma ParseBuilt(frameType: byte, body: bytes, lockToken: nat, trailing: bytes)
    requires |body| < 65536 && lockToken < 65536
    ensures ParseAuthMessage(Message(frameType, body, lockToken) + trailing)
         == Ok(AuthMessage(frameType, FromLe16(Checksums.AqaraCrc(body)), lockToken, body))
  {
    hide Checksums.AqaraCrc, Le16, FromLe16;
    var m := Message(frameType, body, lockToken) + trailing;
    assert m[5..7] == Le16(|body|) && m[7..9] == Checksums.AqaraCrc(body) && m[9..11] == Le16(lockToken);
    assert m[HEADER..] == body + trailing;
    assert Take(body + trailing, |body|) == body;
  }

  /** Whatever follows a message that parses, the result is the same. */
  lemma TrailingIgnored(message: bytes, trailing: bytes)
    requires ParseAuthMessage(message).Ok?
    ensures ParseAuthMessage(message + trailing) == ParseAuthMessage(message)
  {
    hide FromLe16;
    var m := message + trailing;
    assert m[5..7] == message[5..7] && m[7..9] == message[7..9] && m[9..11] == message[9..11];
    var n := FromLe16(message[5..7]);
    assert m[HEADER..] == message[HEADER..] + trailing;
    assert Take(message[HEADER..] + trailing, n) == Take(message[HEADER..], n);
  }

  /** Which strings parse, and to what: eighteen bytes and as many more as the two length bytes say. */
  lemma ParseExactly(m: bytes)
    ensures ParseAuthMessage(m).Ok? <==> |m| >= 18 && |m| >= 18 + m[5] as int + 256 * m[6] as int
    ensures ParseAuthMessage(m).Ok? ==>
              var n := m[5] as int + 256 * m[6] as int;
              ParseAuthMessage(m).value == AuthMessage(m[1], m[7] as int + 256 * m[8] as int,
                                                       m[9] as int + 256 * m[10] as int, m[18..18 + n])
  {
    if |m| >= HEADER {
      assert m[HEADER..][..0] == [];
    }
  }

  // ---------------------------------------------------------------- fragments

  const CHUNK := 18

  function ChunksOf(payload: bytes): (c: seq<bytes>)
    ensures |c| > 0
  {
    if payload == [] then [[]] else Chunks(payload, CHUNK)
  }

  /** One fragment: direction, its place or 0xFF on the last, and a chunk. */
  function Fragment(direction: byte, chunks: seq<bytes>, i: nat): (f: bytes)
    requires i < |chunks| <= 257
    ensures |f| >= 2
  {
    [direction, if i == |chunks| - 1 then 0xFF else i] + chunks[i]
  }

  /** At most 257 chunks: a place past 255 is no byte, unless it is the last. */
  function Fragments(payload: bytes, direction: byte): Result<seq<bytes>> {
    var chunks := ChunksOf(payload);
    if direction != 0x5A && direction != 0xDA then Err("dirección de fragmento no soportada")
    else if |chunks| > 257 then Err("bytes must be in range(0, 256)")
    else Ok(seq(|chunks|, i requires 0 <= i < |chunks| => Fragment(direction, chunks, i)))
  }

  /** The payload cut into pieces of 18 bytes, at least one, each after the direction and its place; the last
      has place 0xFF. */
  predicate IsCut(fs: seq<bytes>, payload: bytes, direction: byte) {
    && |fs| == (if payload == [] then 1 else (|payload| + 17) / 18)
    && forall i | 0 <= i < |fs| ::
         |fs[i]| >= 2 && fs[i][0] == direction && fs[i][1] == (if i == |fs| - 1 then 0xFF else i)
         && fs[i][2..] == Slice(payload, 18 * i, 18)
  }

  lemma FragmentsCut(payload: bytes, direction: byte)
    requires Fragments(payload, direction).Ok?
    ensures IsCut(Fragments(payload, direction).value, payload, direction)
  {
    hide Chunks, Slice;
    var chunks, fs := ChunksOf(payload), Fragments(payload, direction).value;
    ChunksCount(payload, CHUNK);
    forall i | 0 <= i < |fs|
      ensures |fs[i]| >= 2 && fs[i][0] == direction && fs[i][1] == (if i == |fs| - 1 then 0xFF else i)
              && fs[i][2..] == Slice(payload, 18 * i, 18)
    {
      if payload != [] {
        ChunkAt(payload, CHUNK, i);
      }
      assert fs[i][2..] == chunks[i];
    }
  }

  /** `fragment_auth_message`. */
  method FragmentAuthMessage(payload: bytes, direction: byte) returns (r: Result<seq<bytes>>)
    ensures r == Fragments(payload, direction)
    ensures r.Ok? <==> (direction == 0x5A || direction == 0xDA) && |payload| <= 4626
    ensures r.Ok? ==> IsCut(r.value, payload, direction)
  {
    hide Chunks, IsCut;
    FragmentsIff(payload, direction);
    if Fragments(payload, direction).Ok? {
      FragmentsCut(payload, direction);
    }
    if direction != 0x5A && direction != 0xDA {
      return Err("dirección de fragmento no soportada");
    }
    var chunks := ChunksOf(payload);
    var fragments: seq<bytes> := [];
    var index := 0;
    while index < |chunks|
      invariant index <= |chunks| && |fragments| == index && (index < |chunks| ==> index <= 256)
      invariant |chunks| <= 257 ==> forall i | 0 <= i < index :: fragments[i] == Fragment(direction, chunks, i)
      invariant index == |chunks| ==> |chunks| <= 257
    {
      if index != |chunks| - 1 && index >= 256 {
        return Err("bytes must be in range(0, 256)");
      }
      var place: byte := if index == |chunks| - 1 then 0xFF else index;
      fragments := fragments + [[direction, place] + chunks[index]];
      index := index + 1;
    }
    assert fragments == seq(|chunks|, i requires 0 <= i < |chunks| => Fragment(direction, chunks, i));
    return Ok(fragments);
  }

  /** `assemble_auth_fragments` from the i-th fragment on. */
  function Assembled(fragments: seq<bytes>, i: nat, direction: byte): Result<bytes>
    requires i <= |fragments|
    decreases |fragments| - i
  {
    if i == |fragments| then Ok([]) else
      var f := fragments[i];
      if |f| < 2 then Err("fragmento de auth demasiado corto")
      else if f[0] != direction then Err("dirección inesperada en auth")
      else if i < |fragments| - 1 && f[1] != i then Err("secuencia auth inesperada")
      else
        var rest := Assembled(fragments, i + 1, direction);
        if rest.Ok? then Ok(f[2..] + rest.value) else rest
  }

  function Assemble(fragments: seq<bytes>, direction: byte): Result<bytes> {
    if fragments == [] then Err("no hay fragmentos para ensamblar") else Assembled(fragments, 0, direction)
  }

  method AssembleAuthFragments(fragments: seq<bytes>, direction: byte) returns (r: Result<bytes>)
    ensures r == Assemble(fragments, direction)
  {
    if fragments == [] {
      return Err("no hay fragmentos para ensamblar");
    }
    var payload: bytes := [];
    var index := 0;
    ghost var all := Assembled(fragments, 0, direction);
    assert all.Ok? ==> payload + all.value == all.value;
    while index < |fragments|
      invariant index <= |fragments|
      invariant var rest := Assembled(fragments, index, direction);
                Assemble(fragments, direction) == if rest.Ok? then Ok(payload + rest.value) else rest
    {
      var f := fragments[index];
      if |f| < 2 {
        return Err("fragmento de auth demasiado corto");
      }
      if f[0] != direction {
        return Err("dirección inesperada en auth");
      }
      if index < |fragments| - 1 && f[1] != index {
        return Err("secuencia auth inesperada");
      }
      ghost var rest := Assembled(fragments, index + 1, direction);
      assert rest.Ok? ==> payload + (f[2..] + rest.value) == payload + f[2..] + rest.value;
      payload := payload + f[2..];
      index := index + 1;
    }
    assert payload + [] == payload;
    return Ok(payload);
  }

  /** Two bytes, the direction and, on all but the last fragment, its place. */
  predicate Fits(fragments: seq<bytes>, i: nat, direction: byte)
    requires i < |fragments|
  {
    |fragments[i]| >= 2 && fragments[i][0] == direction && (i < |fragments| - 1 ==> fragments[i][1] == i)
  }

  function Contents(fragments: seq<bytes>): (c: seq<bytes>)
    ensures |c| == |fragments|
  {
    seq(|fragments|, i requires 0 <= i < |fragments| => Drop(fragments[i], 2))
  }

  lemma {:induction false} AssembledIff(fragments: seq<bytes>, i: nat, direction: byte)
    requires i <= |fragments|
    ensures Assembled(fragments, i, direction).Ok? <==>
              forall k | i <= k < |fragments| :: Fits(fragments, k, direction)
    decreases |fragments| - i
  {
    if i < |fragments| {
      AssembledIff(fragments, i + 1, direction);
      assert Assembled(fragments, i, direction).Ok? <==>
               Fits(fragments, i, direction) && Assembled(fragments, i + 1, direction).Ok?;
    }
  }

  lemma {:induction false} AssembledContents(fragments: seq<bytes>, i: nat, direction: byte)
    requires i <= |fragments| && Assembled(fragments, i, direction).Ok?
    ensures Assembled(fragments, i, direction).value == Join(Contents(fragments)[i..])
    decreases |fragments| - i
  {
    if i < |fragments| {
      AssembledContents(fragments, i + 1, direction);
      var c := Contents(fragments);
      assert c[i..] == [c[i]] + c[i + 1..];
      hide Join;
      JoinFront(c[i], c[i + 1..]);
    }
  }

  /** Assembly succeeds exactly on a non-empty list whose fragments have two bytes, the direction, and,
      all but the last, their place; it then gives their contents in order. */
  lemma AssembleExactly(fragments: seq<bytes>, direction: byte)
    ensures Assemble(fragments, direction).Ok? <==>
              fragments != [] && forall i | 0 <= i < |fragments| :: Fits(fragments, i, direction)
    ensures Assemble(fragments, direction).Ok? ==> Assemble(fragments, direction).value == Join(Contents(fragments))
  {
    hide Assembled;
    AssembledIff(fragments, 0, direction);
    if Assemble(fragments, direction).Ok? {
      AssembledContents(fragments, 0, direction);
    }
    assert Contents(fragments)[0..] == Contents(fragments);
  }

  /** Assembling inverts fragmenting, whenever fragmenting succeeds. */
  lemma AssembleFragments(payload: bytes, direction: byte)
    requires Fragments(payload, direction).Ok?
    ensures Assemble(Fragments(payload, direction).value, direction) == Ok(payload)
  {
    hide Assembled, Chunks;
    var chunks, fs := ChunksOf(payload), Fragments(payload, direction).value;
    AssembleExactly(fs, direction);
    assert Contents(fs) == chunks;
    if payload == [] {
      JoinFront([], []);
    } else {
      JoinChunks(payload, CHUNK);
    }
  }

  // ---------------------------------------------------------------- the stream reader

  /** The outcome of `read_full_auth_message` on the notifications that arrive: a message or an error,
      and what is left in the queue; or the queue runs dry and the wait times out. */
  datatype Read = Got(message: Result<bytes>, rest: seq<bytes>) | TimedOut

  const INBOUND: byte := 0xDA

  function Reading(fragments: seq<bytes>, queue: seq<bytes>): Read
    decreases |queue|
  {
    if queue == [] then TimedOut
    else if queue[0] == [] then Reading(fragments, queue[1..])
    else if |queue[0]| == 1 then Got(Err("index out of range"), queue[1..])
    else if queue[0][1] == 0xFF then Got(Assemble(fragments + [queue[0]], INBOUND), queue[1..])
    else Reading(fragments + [queue[0]], queue[1..])
  }

  method ReadFullAuthMessage(queue: seq<bytes>) returns (r: Read)
    ensures r == Reading([], queue)
  {
    var fragments: seq<bytes> := [];
    var i := 0;
    assert queue[0..] == queue;
    while i < |queue|
      invariant i <= |queue| && Reading([], queue) == Reading(fragments, queue[i..])
    {
      var fragment := queue[i];
      i := i + 1;
      assert queue[i - 1..][1..] == queue[i..];
      if fragment == [] {
        continue;
      }
      if |fragment| == 1 {
        return Got(Err("index out of range"), queue[i..]);
      }
      fragments := fragments + [fragment];
      if fragment[1] == 0xFF {
        var message := AssembleAuthFragments(fragments, INBOUND);
        return Got(message, queue[i..]);
      }
    }
    return TimedOut;
  }

  function NonEmpty(queue: seq<bytes>): seq<bytes> {
    if queue == [] then [] else (if queue[0] == [] then [] else [queue[0]]) + NonEmpty(queue[1..])
  }

  /** The reader collects fragments up to the first with place 0xFF, past any empty notifications. */
  lemma {:induction false} Collect(done: seq<bytes>, fs: seq<bytes>, queue: seq<bytes>, tail: seq<bytes>)
    returns (rest: seq<bytes>)
    requires fs != [] && NonEmpty(queue) == fs + tail
    requires forall i | 0 <= i < |fs| :: |fs[i]| >= 2 && (fs[i][1] == 0xFF <==> i == |fs| - 1)
    ensures Reading(done, queue) == Got(Assemble(done + fs, INBOUND), rest) && NonEmpty(rest) == tail
    ensures queue == fs + tail ==> rest == tail
    decreases |queue|
  {
    hide Assemble;
    if queue[0] == [] {
      rest := Collect(done, fs, queue[1..], tail);
    } else {
      assert (fs + tail)[0] == fs[0] && (fs + tail)[1..] == fs[1..] + tail;
      if |fs| == 1 {
        rest := queue[1..];
        assert done + fs == done + [queue[0]] && fs[1..] + tail == tail;
      } else {
        rest := Collect(done + [fs[0]], fs[1..], queue[1..], tail);
        assert done + [fs[0]] + fs[1..] == done + fs;
      }
    }
  }

  /** What the reader does with any queue: it stops at the first notification of one byte or with place 0xFF. The
      first is an error; the second ends a message of all that came before it but the empty ones, assembled in
      the direction 0xDA. The rest of the queue stays, and without such a notification the wait times out. */
  lemma {:induction false} ReadExactly(fragments: seq<bytes>, queue: seq<bytes>) returns (k: nat)
    ensures k <= |queue| && forall i | 0 <= i < k :: queue[i] == [] || (|queue[i]| >= 2 && queue[i][1] != 0xFF)
    ensures k == |queue| ==> Reading(fragments, queue) == TimedOut
    ensures k < |queue| ==>
              && queue[k] != [] && (|queue[k]| == 1 || queue[k][1] == 0xFF)
              && Reading(fragments, queue) ==
                 Got(if |queue[k]| == 1 then Err("index out of range")
                     else Assemble(fragments + NonEmpty(queue[..k + 1]), 0xDA), queue[k + 1..])
    decreases |queue|
  {
    hide Assemble;
    if queue == [] {
      k := 0;
    } else if |queue[0]| == 1 || (queue[0] != [] && queue[0][1] == 0xFF) {
      k := 0;
      assert queue[..1][1..] == [] && [queue[0]] + [] == [queue[0]];
    } else {
      var more := if queue[0] == [] then [] else [queue[0]];
      k := ReadExactly(fragments + more, queue[1..]);
      k := k + 1;
      if k < |queue| {
        assert queue[..k + 1][1..] == queue[1..][..k];
        assert fragments + more + NonEmpty(queue[1..][..k]) == fragments + NonEmpty(queue[..k + 1]);
      }
      assert fragments + [] == fragments;
      assert forall i | 0 < i < k :: queue[i] == queue[1..][i - 1];
    }
  }

  /** The longest message the reader can take: 256 chunks. */
  const LONGEST := 4608

  lemma ChunkCount(payload: bytes)
    ensures |ChunksOf(payload)| <= 256 <==> |payload| <= LONGEST
    ensures |ChunksOf(payload)| <= 257 <==> |payload| <= LONGEST + CHUNK
  {
    hide Chunks;
    ChunksCount(payload, CHUNK);
  }

  lemma ReadsOne(m: bytes, queue: seq<bytes>, tail: seq<bytes>) returns (rest: seq<bytes>)
    requires |m| <= LONGEST && Fragments(m, INBOUND).Ok? && NonEmpty(queue) == Fragments(m, INBOUND).value + tail
    ensures Reading([], queue) == Got(Ok(m), rest) && NonEmpty(rest) == tail
    ensures queue == Fragments(m, INBOUND).value + tail ==> rest == tail
  {
    hide Assemble, Reading;
    ChunkCount(m);
    AssembleFragments(m, INBOUND);
    var fs := Fragments(m, INBOUND).value;
    rest := Collect([], fs, queue, tail);
    assert [] + fs == fs;
  }

  function AllFragments(messages: seq<bytes>): seq<bytes>
    requires forall m | m in messages :: |m| <= LONGEST
  {
    if messages == [] then [] else
      ChunkCount(messages[0]);
      Fragments(messages[0], INBOUND).value + AllFragments(messages[1..])
  }

  /** Reading `n` messages, one call after another: the messages, and what is left in the queue. */
  function ReadMany(n: nat, queue: seq<bytes>): Option<(seq<bytes>, seq<bytes>)> {
    if n == 0 then Some(([], queue)) else
      match Reading([], queue)
      case TimedOut => None
      case Got(Err(_), _) => None
      case Got(Ok(m), rest) =>
        match ReadMany(n - 1, rest)
        case None => None
        case Some((ms, left)) => Some(([m] + ms, left))
  }

  /** The fragments of any messages of at most 4608 bytes, with empty notifications anywhere among
      them, are read back as exactly those messages, and no fragment is left behind. */
  lemma {:induction false} StreamRoundTrip(messages: seq<bytes>, queue: seq<bytes>)
    requires forall m | m in messages :: |m| <= LONGEST
    requires NonEmpty(queue) == AllFragments(messages)
    ensures ReadMany(|messages|, queue).Some?
    ensures ReadMany(|messages|, queue).value.0 == messages && NonEmpty(ReadMany(|messages|, queue).value.1) == []
  {
    hide Reading, Fragments, NonEmpty;
    if messages != [] {
      ChunkCount(messages[0]);
      assert Fragments(messages[0], INBOUND).Ok? by { FragmentsIff(messages[0], INBOUND); }
      var rest := ReadsOne(messages[0], queue, AllFragments(messages[1..]));
      StreamRoundTrip(messages[1..], rest);
    }
  }

  lemma FragmentsIff(m: bytes, direction: byte)
    ensures Fragments(m, direction).Ok? <==> (direction == 0x5A || direction == 0xDA) && |m| <= LONGEST + CHUNK
  {
    ChunkCount(m);
  }

  lemma {:induction false} NonEmptyFull(queue: seq<bytes>)
    requires forall i | 0 <= i < |queue| :: queue[i] != []
    ensures NonEmpty(queue) == queue
  {
    if queue != [] {
      NonEmptyFull(queue[1..]);
    }
  }

  /** At 257 chunks the place of fragment 255 is 0xFF too: batch assembly still inverts fragmenting,
      but the reader stops there, 4608 bytes in, and leaves the last fragment for the next message. */
  lemma CutShort(m: bytes)
    requires LONGEST < |m| <= LONGEST + CHUNK
    ensures Fragments(m, INBOUND).Ok? && Assemble(Fragments(m, INBOUND).value, INBOUND) == Ok(m)
    ensures |Fragments(m, INBOUND).value| == 257
    ensures var fs := Fragments(m, INBOUND).value; Reading([], fs) == Got(Ok(m[..LONGEST]), [fs[256]])
  {
    hide Assemble, Reading, NonEmpty, Chunks, Fragment, ChunksOf;
    ChunkCount(m);
    AssembleFragments(m, INBOUND);
    var fs := Fragments(m, INBOUND).value;
    var head, tail := fs[..256], [fs[256]];
    PlacesCut(m);
    NonEmptyFull(fs);
    assert fs == head + tail;
    var rest := Collect([], head, fs, tail);
    assert [] + head == head;
    HeadAssembles(m);
  }

  lemma PlacesCut(m: bytes)
    requires LONGEST < |m| <= LONGEST + CHUNK
    ensures var fs := Fragments(m, INBOUND);
            fs.Ok? && |fs.value| == 257 && forall i | 0 <= i < 256 ::
              |fs.value[i]| >= 2 && (fs.value[i][1] == 0xFF <==> i == 255)
    ensures |Fragments(m, INBOUND).value[256]| >= 2
  {
    hide Chunks;
    ChunkCount(m);
  }

  lemma HeadAssembles(m: bytes)
    requires LONGEST < |m| <= LONGEST + CHUNK && Fragments(m, INBOUND).Ok? && |Fragments(m, INBOUND).value| == 257
    ensures Assemble(Fragments(m, INBOUND).value[..256], INBOUND) == Ok(m[..LONGEST])
  {
    hide Assemble, Chunks;
    var head, chunks := Fragments(m, INBOUND).value[..256], ChunksOf(m);
    AssembleExactly(head, INBOUND);
    assert Contents(head) == chunks[..256];
    FullChunks(m, chunks);
  }

  lemma FullChunks(m: bytes, chunks: seq<bytes>)
    requires LONGEST < |m| && |chunks| == 257 && chunks == Chunks(m, CHUNK)
    ensures Join(chunks[..256]) == m[..LONGEST]
  {
    hide Chunks;
    JoinChunks(m, CHUNK);
    assert chunks == chunks[..256] + chunks[256..];
    JoinConcat(chunks[..256], chunks[256..]);
    JoinLength(chunks[..256], CHUNK);
  }

  /** 4608 bytes is the exact bound of reading back what was fragmented. */
  lemma ReadBackExactly(m: bytes)
    ensures Fragments(m, INBOUND).Ok? && Reading([], Fragments(m, INBOUND).value) == Got(Ok(m), []) <==> |m| <= LONGEST
  {
    hide Reading, Fragments;
    FragmentsIff(m, INBOUND);
    if |m| <= LONGEST {
      var fs := Fragments(m, INBOUND).value;
      FragmentsFull(m);
      NonEmptyFull(fs);
      assert fs + [] == fs;
      var rest := ReadsOne(m, fs, []);
    } else if |m| <= LONGEST + CHUNK {
      CutShort(m);
    }
  }

  lemma FragmentsFull(m: bytes)
    requires Fragments(m, INBOUND).Ok?
    ensures forall i | 0 <= i < |Fragments(m, INBOUND).value| :: Fragments(m, INBOUND).value[i] != []
  {
    hide Chunks;
  }

  /** Build, fragment, read off the stream, parse. */
  function Exchange(frameType: byte, body: bytes, lockToken: int): Result<AuthMessage> {
    match Built(frameType, body, lockToken)
    case Err(reason) => Err(reason)
    case Ok(m) =>
      match Fragments(m, INBOUND)
      case Err(reason) => Err(reason)
      case Ok(fs) =>
        match Reading([], fs)
        case TimedOut => Err("timeout")
        case Got(Err(reason), _) => Err(reason)
        case Got(Ok(received), _) => ParseAuthMessage(received)
  }

  /** A message comes through with its type, lock token, body and the CRC of the body exactly when its
      type is 6 or 7, its token fits and its body has at most 4590 bytes. */
  lemma ExchangeExactly(frameType: byte, body: bytes, lockToken: int)
    ensures Exchange(frameType, body, lockToken).Ok? <==>
              (frameType == 6 || frameType == 7) && 0 <= lockToken < 65536 && |body| <= LONGEST - HEADER
    ensures Exchange(frameType, body, lockToken).Ok? ==>
              Exchange(frameType, body, lockToken).value ==
              AuthMessage(frameType, FromLe16(Checksums.AqaraCrc(body)), lockToken, body)
  {
    hide Reading, Fragments, Message, ParseAuthMessage;
    match Built(frameType, body, lockToken)
    case Err(_) =>
    case Ok(m) =>
      FragmentsIff(m, INBOUND);
      ReadBackExactly(m);
      if |m| <= LONGEST {
        ParseBuilt(frameType, body, lockToken, []);
        assert m + [] == m;
      } else if |m| <= LONGEST + CHUNK {
        CutShort(m);
        CutDoesNotParse(frameType, body, lockToken);
      }
  }

  lemma CutDoesNotParse(frameType: byte, body: bytes, lockToken: nat)
    requires LONGEST - HEADER < |body| < 65536 && lockToken < 65536
    ensures ParseAuthMessage(Message(frameType, body, lockToken)[..LONGEST]).Err?
  {
    hide Le16, FromLe16, Checksums.AqaraCrc, Repeat;
    var h, m := HeaderOf(frameType, body, lockToken), Message(frameType, body, lockToken);
    assert m[..LONGEST][5..7] == m[5..7] == h[5..7];
    assert h[5..7] == Le16(|body|);
  }
}
