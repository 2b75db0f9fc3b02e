/** The reads that follow the operation on one authenticated session (session.py, client.py): each reply
    is matched to its request by opcode, while spontaneous events share the queue. */
module Burst {
  import opened Bytes

  /** A notification and when it arrives, in milliseconds. */
  datatype Arrival = Arrival(time: int, frame: bytes)

  /** `LockOperationWrite`: the payload is the plaintext of the frame. */
  datatype Request = Request(operation: string, payload: bytes, prefix: byte)

  datatype Entry = Entry(operation: string, reply: Option<bytes>)

  datatype Answer = Answer(reply: Option<bytes>, forwarded: seq<bytes>, left: seq<Arrival>, clock: int)

  /** Does this plaintext answer the request? With an empty payload anything does. */
  predicate Answers(request: Request, plain: bytes) {
    request.payload == [] || (plain != [] && plain[0] == request.payload[0])
  }

  /** The wait for one reply. `decrypt` gives None where the codec raises; the session then fails. */
  function Awaited(decrypt: bytes -> Option<bytes>, request: Request, queue: seq<Arrival>, clock: int,
              deadline: int): Option<Answer>
    decreases |queue|
  {
    if clock >= deadline then Some(Answer(None, [], queue, clock))
    else if queue == [] || queue[0].time >= deadline then Some(Answer(None, [], queue, deadline))
    else
      var now := if queue[0].time > clock then queue[0].time else clock;
      if |queue[0].frame| < 2 then Awaited(decrypt, request, queue[1..], now, deadline)
      else
        match decrypt(queue[0].frame[1..])
        case None => None
        case Some(plain) =>
          if Answers(request, plain) then Some(Answer(Some(plain), [], queue[1..], now))
          else Told([plain], Awaited(decrypt, request, queue[1..], now, deadline))
  }

  /** The same wait after `plains` were forwarded. */
  function Told(plains: seq<bytes>, a: Option<Answer>): Option<Answer> {
    if a.None? then None else Some(a.value.(forwarded := plains + a.value.forwarded))
  }

  lemma ToldTwice(p: seq<bytes>, q: seq<bytes>, a: Option<Answer>)
    ensures Told(p, Told(q, a)) == Told(p + q, a) && Told([], a) == a
  {
    if a.Some? {
      assert p + (q + a.value.forwarded) == (p + q) + a.value.forwarded;
      assert [] + a.value.forwarded == a.value.forwarded;
    }
  }

  datatype Served = Served(entries: seq<Entry>, forwarded: seq<bytes>, left: seq<Arrival>, clock: int)

  /** The whole burst: each request is written, which takes `latency`, and then its reply awaited. */
  function Serve(decrypt: bytes -> Option<bytes>, requests: seq<Request>, queue: seq<Arrival>, clock: int,
              latency: nat, timeout: int): Option<Served>
    decreases |requests|
  {
    if requests == [] then Some(Served([], [], queue, clock)) else
      match Awaited(decrypt, requests[0], queue, clock + latency, clock + latency + timeout)
      case None => None
      case Some(a) =>
        After([Entry(requests[0].operation, a.reply)], a.forwarded,
              Serve(decrypt, requests[1..], a.left, a.clock, latency, timeout))
  }

  /** The same burst after `entries` were collected and `plains` forwarded. */
  function After(entries: seq<Entry>, plains: seq<bytes>, s: Option<Served>): Option<Served> {
    if s.None? then None
    else Some(s.value.(entries := entries + s.value.entries, forwarded := plains + s.value.forwarded))
  }

  lemma AfterTwice(e: seq<Entry>, p: seq<bytes>, f: seq<Entry>, q: seq<bytes>, s: Option<Served>)
    ensures After(e, p, After(f, q, s)) == After(e + f, p + q, s) && After([], [], s) == s
  {
    if s.Some? {
      assert e + (f + s.value.entries) == (e + f) + s.value.entries && [] + s.value.entries == s.value.entries;
      assert p + (q + s.value.forwarded) == (p + q) + s.value.forwarded && [] + s.value.forwarded == s.value.forwarded;
    }
  }

  /** A control write: the prefix in the clear, and the plaintext behind it. */
  datatype Write = Write(prefix: byte, plain: bytes)

  function WritesOf(requests: seq<Request>): seq<Write> {
    seq(|requests|, i requires 0 <= i < |requests| => Write(requests[i].prefix, requests[i].payload))
  }

  // ---------------------------------------------------------------- the loops

  class Session {
    const decrypt: bytes -> Option<bytes>
    const consumer: bool                       // is there an `on_report`?
    const latency: nat
    const timeout: int
    var clock: int
    var control: seq<Arrival>                  // what is in the control queue or will get there
    var written: seq<Write>
    var reported: seq<bytes>                   // what `on_report("ff62", ...)` was called with
    var out: seq<Entry>                        // `follow_up_out`

    constructor (decrypt: bytes -> Option<bytes>, consumer: bool, latency: nat, timeout: int, clock: int,
                control: seq<Arrival>)
      ensures this.decrypt == decrypt && this.consumer == consumer && this.latency == latency && this.timeout == timeout
      ensures this.clock == clock && this.control == control && written == [] && reported == [] && out == []
    {
      this.decrypt, this.consumer, this.latency, this.timeout := decrypt, consumer, latency, timeout;
      this.clock, this.control := clock, control;
      written, reported, out := [], [], [];
    }

    /** Waits for the answer to `request`; `ok` is false when the codec raises. */
    method AwaitReply(request: Request) returns (ok: bool, reply: Option<bytes>)
      modifies this`clock, this`control, this`reported
      ensures var a := Awaited(decrypt, request, old(control), old(clock), old(clock) + timeout);
              && ok == a.Some?
              && (ok ==> reply == a.value.reply && control == a.value.left && clock == a.value.clock
                         && reported == old(reported) + if consumer then a.value.forwarded else [])
    {
      var deadline := clock + timeout;
      ghost var all, told: seq<bytes> := Awaited(decrypt, request, control, clock, deadline), [];
      ToldTwice([], [], all);
      while true
        invariant reported == old(reported) + if consumer then told else []
        invariant all == Told(told, Awaited(decrypt, request, control, clock, deadline))
        decreases |control|
      {
        if clock >= deadline {
          return true, None;
        }
        if control == [] || control[0].time >= deadline {
          clock := deadline;
          return true, None;
        }
        var frame := control[0].frame;
        clock := if control[0].time > clock then control[0].time else clock;
        control := control[1..];
        if |frame| < 2 {
          continue;
        }
        var plain := decrypt(frame[1..]);
        if plain == None {
          return false, None;
        }
        if Answers(request, plain.value) {
          return true, plain;
        }
        if consumer {
          reported := reported + [plain.value];
        }
        ToldTwice(told, [plain.value], Awaited(decrypt, request, control, clock, deadline));
        told := told + [plain.value];
      }
    }

    /** One request of the burst. */
    method FollowUp(request: Request) returns (ok: bool)
      modifies this
      ensures var a := Awaited(decrypt, request, old(control), old(clock) + latency, old(clock) + latency + timeout);
              && ok == a.Some?
              && (ok ==> out == old(out) + [Entry(request.operation, a.value.reply)]
                         && control == a.value.left && clock == a.value.clock
                         && reported == old(reported) + if consumer then a.value.forwarded else [])
      ensures written == old(written) + [Write(request.prefix, request.payload)]
    {
      hide Awaited;
      written := written + [Write(request.prefix, request.payload)];
      clock := clock + latency;
      var reply;
      ok, reply := AwaitReply(request);
      if ok {
        out := out + [Entry(request.operation, reply)];
      }
    }

    /** The burst. */
    method FollowUps(requests: seq<Request>) returns (ok: bool)
      modifies this
      ensures var s := Serve(decrypt, requests, old(control), old(clock), latency, timeout);
              && ok == s.Some?
              && (ok ==> out == old(out) + s.value.entries && control == s.value.left && clock == s.value.clock
                         && reported == old(reported) + if consumer then s.value.forwarded else [])
      ensures ok ==> written == old(written) + WritesOf(requests)
    {
      hide Awaited, Told, Serve, WritesOf;
      ghost var all := Serve(decrypt, requests, control, clock, latency, timeout);
      ghost var entries: seq<Entry>, told: seq<bytes> := [], [];
      assert requests[0..] == requests;
      AfterTwice([], [], [], [], all);
      WritesMore(requests, 0);
      var i := 0;
      while i < |requests|
        invariant i <= |requests| && out == old(out) + entries && written == old(written) + WritesOf(requests[..i])
        invariant reported == old(reported) + if consumer then told else []
        invariant all == After(entries, told, Serve(decrypt, requests[i..], control, clock, latency, timeout))
      {
        ghost var a := Awaited(decrypt, requests[i], control, clock + latency, clock + latency + timeout);
        ServeStep(decrypt, requests, i, control, clock, latency, timeout);
        WritesMore(requests, i);
        ok := FollowUp(requests[i]);
        if !ok {
          return false;
        }
        ghost var entry := Entry(requests[i].operation, a.value.reply);
        AfterTwice(entries, told, [entry], a.value.forwarded,
                   Serve(decrypt, requests[i + 1..], control, clock, latency, timeout));
        entries, told := entries + [entry], told + a.value.forwarded;
        i := i + 1;
      }
      assert requests[..i] == requests;
      ServeNothing(decrypt, requests[i..], control, clock, latency, timeout);
      return true;
    }
  }

  lemma ServeStep(decrypt: bytes -> Option<bytes>, requests: seq<Request>, i: nat, queue: seq<Arrival>, clock: int,
              latency: nat, timeout: int)
    requires i < |requests|
    ensures var a := Awaited(decrypt, requests[i], queue, clock + latency, clock + latency + timeout);
            Serve(decrypt, requests[i..], queue, clock, latency, timeout) ==
            if a.None? then None
            else After([Entry(requests[i].operation, a.value.reply)], a.value.forwarded,
                       Serve(decrypt, requests[i + 1..], a.value.left, a.value.clock, latency, timeout))
  {
    hide Awaited, After;
    assert requests[i..][1..] == requests[i + 1..];
  }

  lemma ServeNothing(decrypt: bytes -> Option<bytes>, requests: seq<Request>, queue: seq<Arrival>, clock: int,
              latency: nat, timeout: int)
    requires requests == []
    ensures Serve(decrypt, requests, queue, clock, latency, timeout) == Some(Served([], [], queue, clock))
  {}

  lemma WritesMore(requests: seq<Request>, i: nat)
    requires i <= |requests|
    ensures WritesOf(requests[..0]) == []
    ensures i < |requests| ==>
              WritesOf(requests[..i + 1]) == WritesOf(requests[..i]) + [Write(requests[i].prefix, requests[i].payload)]
  {}

  /** A frame of a burst: its text as the caller wrote it, and what it parses to. */
  datatype Spec = Spec(text: string, payload: bytes, prefix: byte)

  function RequestOf(spec: Spec): Request {
    Request("burst:" + spec.text, spec.payload, spec.prefix)
  }

  /** `read_burst` once the session is up: one write for each spec, and every spec with its own reply, in order.
      A reply begins with the first byte of the spec, unless the spec is empty. It fails only on a frame that
      cannot be decrypted. */
  method ReadBurst(session: Session, specs: seq<Spec>) returns (ok: bool, pairs: seq<(string, Option<bytes>)>)
    requires session.out == []
    modifies session
    ensures ok ==> |pairs| == |specs| && forall i | 0 <= i < |specs| ::
              pairs[i].0 == specs[i].text && (pairs[i].1.Some? ==> Opens(pairs[i].1.value, specs[i].payload))
    ensures ok ==> |session.written| == |old(session.written)| + |specs| && forall i | 0 <= i < |specs| ::
              session.written[|old(session.written)| + i] == Write(specs[i].prefix, specs[i].payload)
    ensures !ok ==> Undecryptable(session.decrypt, old(session.control))
  {
    hide Serve, Awaited, Undecryptable;
    pairs := [];
    var requests := seq(|specs|, i requires 0 <= i < |specs| => RequestOf(specs[i]));
    ghost var queue, clock := session.control, session.clock;
    ok := session.FollowUps(requests);
    if !ok {
      BurstError(session.decrypt, requests, queue, clock, session.latency, session.timeout);
      return;
    }
    Paired(session.decrypt, requests, queue, clock, session.latency, session.timeout);
    assert session.out ==
           Serve(session.decrypt, requests, queue, clock, session.latency, session.timeout).value.entries;
    pairs := PairUp(specs, session.out);
  }

  /** `zip(frames_hex, follow_out)`. */
  method PairUp(specs: seq<Spec>, entries: seq<Entry>) returns (pairs: seq<(string, Option<bytes>)>)
    requires |specs| == |entries|
    ensures |pairs| == |specs| && forall i | 0 <= i < |specs| :: pairs[i] == (specs[i].text, entries[i].reply)
  {
    pairs := [];
    while |pairs| < |specs|
      invariant |pairs| <= |specs|
      invariant forall i | 0 <= i < |pairs| :: pairs[i] == (specs[i].text, entries[i].reply)
    {
      pairs := pairs + [(specs[|pairs|].text, entries[|pairs|].reply)];
    }
  }

  // ---------------------------------------------------------------- what the burst means

  /** The plaintexts of the frames of two bytes and more. */
  function Plain(decrypt: bytes -> Option<bytes>, frames: seq<Arrival>): seq<bytes> {
    if frames == [] then []
    else if |frames[0].frame| < 2 || decrypt(frames[0].frame[1..]) == None then Plain(decrypt, frames[1..])
    else [decrypt(frames[0].frame[1..]).value] + Plain(decrypt, frames[1..])
  }

  lemma {:induction false} PlainConcat(decrypt: bytes -> Option<bytes>, a: seq<Arrival>, b: seq<Arrival>)
    ensures Plain(decrypt, a + b) == Plain(decrypt, a) + Plain(decrypt, b)
  {
    if a == [] {
      assert a + b == b;
    } else {
      assert (a + b)[1..] == a[1..] + b;
      PlainConcat(decrypt, a[1..], b);
    }
  }

  /** The plaintext of one frame, if it is used at all. */
  function PlainOf(decrypt: bytes -> Option<bytes>, frame: bytes): seq<bytes> {
    if |frame| < 2 || decrypt(frame[1..]) == None then [] else [decrypt(frame[1..]).value]
  }

  lemma PlainFront(decrypt: bytes -> Option<bytes>, queue: seq<Arrival>, m: nat)
    requires queue != [] && m < |queue|
    ensures Plain(decrypt, queue[..m + 1]) == PlainOf(decrypt, queue[0].frame) + Plain(decrypt, queue[1..][..m])
    ensures Plain(decrypt, queue[..1]) == PlainOf(decrypt, queue[0].frame)
    ensures Plain(decrypt, queue[..0]) == [] && queue[1..][m..] == queue[m + 1..]
  {
    assert queue[..m + 1][1..] == queue[1..][..m];
    assert queue[..1][1..] == [];
  }

  /** The clock once these notifications have arrived. */
  function Latest(clock: int, frames: seq<Arrival>): int
    decreases |frames|
  {
    if frames == [] then clock
    else Latest(if frames[0].time > clock then frames[0].time else clock, frames[1..])
  }

  /** The text begins with the first byte of the request; an empty request takes any text. */
  predicate Opens(plain: bytes, payload: bytes) {
    payload == [] || (plain != [] && plain[0] == payload[0])
  }

  /** What a wait does with its first `n` frames, of which the last is the answer if there is one. */
  predicate Explains(decrypt: bytes -> Option<bytes>, request: Request, queue: seq<Arrival>, clock: int, deadline: int,
                     a: Answer, n: nat) {
    && n <= |queue| && a.left == queue[n..] && (forall i | 0 <= i < n :: queue[i].time < deadline)
    && Plain(decrypt, queue[..n]) == a.forwarded + (if a.reply.Some? then [a.reply.value] else [])
    && (forall p | p in a.forwarded :: !Opens(p, request.payload))
    && (a.reply.Some? ==> Opens(a.reply.value, request.payload))
    && (a.reply.None? ==> if clock >= deadline then n == 0 else n == |queue| || queue[n].time >= deadline)
    && a.clock == (if a.reply.Some? then Latest(clock, queue[..n]) else if clock >= deadline then clock else deadline)
  }

  /** A frame that does not answer comes first. */
  lemma ExplainsMore(decrypt: bytes -> Option<bytes>, request: Request, queue: seq<Arrival>, clock: int, now: int,
                     deadline: int, a: Answer, m: nat)
    requires queue != [] && queue[0].time < deadline && clock < deadline
    requires now == if queue[0].time > clock then queue[0].time else clock
    requires Explains(decrypt, request, queue[1..], now, deadline, a, m)
    requires forall p | p in PlainOf(decrypt, queue[0].frame) :: !Opens(p, request.payload)
    ensures Explains(decrypt, request, queue, clock, deadline,
                     a.(forwarded := PlainOf(decrypt, queue[0].frame) + a.forwarded), m + 1)
  {
    hide Plain, PlainOf, Opens;
    PlainFront(decrypt, queue, m);
    assert queue[..m + 1][1..] == queue[1..][..m];
    forall i | 0 <= i < m + 1 ensures queue[i].time < deadline {
      assert i > 0 ==> queue[i] == queue[1..][i - 1];
    }
  }

  /** A wait takes frames off the front of the queue, none of them at or after the deadline. It returns the
      first that answers; all before it are forwarded in order. Without one it takes all that come in time. */
  lemma {:induction false} FirstAnswerWins(decrypt: bytes -> Option<bytes>, request: Request, queue: seq<Arrival>,
                                           clock: int, deadline: int)
    returns (n: nat)
    requires Awaited(decrypt, request, queue, clock, deadline).Some?
    ensures Explains(decrypt, request, queue, clock, deadline,
                     Awaited(decrypt, request, queue, clock, deadline).value, n)
    decreases |queue|
  {
    hide Plain, Explains;
    if clock >= deadline || queue == [] || queue[0].time >= deadline {
      n := 0;
      StopsAtOnce(decrypt, request, queue, clock, deadline);
    } else {
      var now := if queue[0].time > clock then queue[0].time else clock;
      if |queue[0].frame| >= 2 && Opens(decrypt(queue[0].frame[1..]).value, request.payload) {
        n := 1;
        FirstAnswers(decrypt, request, queue, clock, deadline);
      } else {
        var m := FirstAnswerWins(decrypt, request, queue[1..], now, deadline);
        n := m + 1;
        var a := Awaited(decrypt, request, queue[1..], now, deadline).value;
        ExplainsMore(decrypt, request, queue, clock, now, deadline, a, m);
        assert [] + a.forwarded == a.forwarded;
      }
    }
  }

  lemma StopsAtOnce(decrypt: bytes -> Option<bytes>, request: Request, queue: seq<Arrival>, clock: int, deadline: int)
    requires clock >= deadline || queue == [] || queue[0].time >= deadline
    ensures var a := Awaited(decrypt, request, queue, clock, deadline);
            a.Some? && Explains(decrypt, request, queue, clock, deadline, a.value, 0)
  {
    assert queue[..0] == [];
  }

  lemma FirstAnswers(decrypt: bytes -> Option<bytes>, request: Request, queue: seq<Arrival>, clock: int, deadline: int)
    requires clock < deadline && queue != [] && queue[0].time < deadline && |queue[0].frame| >= 2
    requires decrypt(queue[0].frame[1..]).Some? && Opens(decrypt(queue[0].frame[1..]).value, request.payload)
    ensures var a := Awaited(decrypt, request, queue, clock, deadline);
            a.Some? && Explains(decrypt, request, queue, clock, deadline, a.value, 1)
  {
    hide Plain;
    PlainFront(decrypt, queue, 0);
    assert queue[..1][1..] == [];
    var now := if queue[0].time > clock then queue[0].time else clock;
    assert Latest(clock, queue[..1]) == Latest(now, []);
  }

  /** A frame of two bytes or more that the codec rejects. */
  predicate Undecryptable(decrypt: bytes -> Option<bytes>, queue: seq<Arrival>) {
    exists i | 0 <= i < |queue| :: |queue[i].frame| >= 2 && decrypt(queue[i].frame[1..]) == None
  }

  /** Frame `n` is the first, of those in time before any answer, that the codec rejects. */
  predicate Breaks(decrypt: bytes -> Option<bytes>, request: Request, queue: seq<Arrival>, deadline: int, n: nat) {
    && n < |queue| && (forall i | 0 <= i <= n :: queue[i].time < deadline)
    && |queue[n].frame| >= 2 && decrypt(queue[n].frame[1..]) == None
    && forall i | 0 <= i < n && |queue[i].frame| >= 2 ::
         decrypt(queue[i].frame[1..]).Some? && !Opens(decrypt(queue[i].frame[1..]).value, request.payload)
  }

  /** A wait fails exactly when the codec rejects a frame that comes in time and before the answer. */
  lemma {:induction false} WaitError(decrypt: bytes -> Option<bytes>, request: Request, queue: seq<Arrival>,
                                     clock: int, deadline: int)
    ensures Awaited(decrypt, request, queue, clock, deadline).None? <==>
              clock < deadline && exists n: nat :: Breaks(decrypt, request, queue, deadline, n)
    decreases |queue|
  {
    hide Breaks;
    BreaksFirst(decrypt, request, queue, deadline);
    if clock < deadline && queue != [] && queue[0].time < deadline {
      var now := if queue[0].time > clock then queue[0].time else clock;
      WaitError(decrypt, request, queue[1..], now, deadline);
      if n: nat :| Breaks(decrypt, request, queue[1..], deadline, n) {
        BreaksLater(decrypt, request, queue, deadline, n);
      }
      if n: nat :| n > 0 && Breaks(decrypt, request, queue, deadline, n) {
        BreaksLater(decrypt, request, queue, deadline, n - 1);
      }
    }
  }

  lemma BreaksFirst(decrypt: bytes -> Option<bytes>, request: Request, queue: seq<Arrival>, deadline: int)
    ensures Breaks(decrypt, request, queue, deadline, 0) <==>
              queue != [] && queue[0].time < deadline && |queue[0].frame| >= 2 && decrypt(queue[0].frame[1..]) == None
    ensures queue == [] || queue[0].time >= deadline ==>
              forall n: nat :: !Breaks(decrypt, request, queue, deadline, n)
  {}

  lemma BreaksLater(decrypt: bytes -> Option<bytes>, request: Request, queue: seq<Arrival>, deadline: int, n: nat)
    requires queue != [] && queue[0].time < deadline
    ensures Breaks(decrypt, request, queue, deadline, n + 1) <==>
              Breaks(decrypt, request, queue[1..], deadline, n)
              && (|queue[0].frame| >= 2 ==>
                    decrypt(queue[0].frame[1..]).Some? && !Opens(decrypt(queue[0].frame[1..]).value, request.payload))
  {
    forall i | 0 < i < |queue| ensures queue[i] == queue[1..][i - 1] {}
    if Breaks(decrypt, request, queue[1..], deadline, n) {
      assert forall i | 0 <= i <= n + 1 :: i > 0 ==> queue[i] == queue[1..][i - 1];
    }
    if Breaks(decrypt, request, queue, deadline, n + 1) {
      assert forall i | 0 <= i <= n :: queue[1..][i] == queue[i + 1];
    }
  }

  /** A burst fails only because of a frame that the codec rejects. */
  lemma {:induction false} BurstError(decrypt: bytes -> Option<bytes>, requests: seq<Request>, queue: seq<Arrival>,
                                      clock: int, latency: nat, timeout: int)
    requires Serve(decrypt, requests, queue, clock, latency, timeout).None?
    ensures Undecryptable(decrypt, queue)
    decreases |requests|
  {
    hide Awaited;
    var start, deadline := clock + latency, clock + latency + timeout;
    var a := Awaited(decrypt, requests[0], queue, start, deadline);
    if a.None? {
      WaitError(decrypt, requests[0], queue, start, deadline);
    } else {
      var n := FirstAnswerWins(decrypt, requests[0], queue, start, deadline);
      BurstError(decrypt, requests[1..], a.value.left, a.value.clock, latency, timeout);
      var i :| 0 <= i < |a.value.left| && |a.value.left[i].frame| >= 2 && decrypt(a.value.left[i].frame[1..]) == None;
      assert a.value.left[i] == queue[n + i];
    }
  }

  /** One entry for each request, in request order, and a reply never carries another request's opcode. */
  lemma {:induction false} Paired(decrypt: bytes -> Option<bytes>, requests: seq<Request>, queue: seq<Arrival>,
              clock: int, latency: nat, timeout: int)
    requires Serve(decrypt, requests, queue, clock, latency, timeout).Some?
    ensures var entries := Serve(decrypt, requests, queue, clock, latency, timeout).value.entries;
            |entries| == |requests| && forall i | 0 <= i < |requests| ::
              entries[i].operation == requests[i].operation
              && (entries[i].reply.Some? ==> Opens(entries[i].reply.value, requests[i].payload))
    decreases |requests|
  {
    hide Awaited;
    if requests != [] {
      var a := Awaited(decrypt, requests[0], queue, clock + latency, clock + latency + timeout);
      var n := FirstAnswerWins(decrypt, requests[0], queue, clock + latency, clock + latency + timeout);
      Paired(decrypt, requests[1..], a.value.left, a.value.clock, latency, timeout);
    }
  }

  /** `all` is an interleaving of `a` and `b`: each element is used once, and both orders are kept. */
  predicate Merges(all: seq<bytes>, a: seq<bytes>, b: seq<bytes>) {
    if all == [] then a == [] && b == []
    else (a != [] && a[0] == all[0] && Merges(all[1..], a[1..], b))
         || (b != [] && b[0] == all[0] && Merges(all[1..], a, b[1..]))
  }

  lemma {:induction false} MergesConcat(all: seq<bytes>, a: seq<bytes>, b: seq<bytes>, all2: seq<bytes>,
              a2: seq<bytes>, b2: seq<bytes>)
    requires Merges(all, a, b) && Merges(all2, a2, b2)
    ensures Merges(all + all2, a + a2, b + b2)
  {
    if all == [] {
      assert all + all2 == all2 && a + a2 == a2 && b + b2 == b2;
    } else {
      assert (all + all2)[1..] == all[1..] + all2;
      if a != [] && a[0] == all[0] && Merges(all[1..], a[1..], b) {
        MergesConcat(all[1..], a[1..], b, all2, a2, b2);
        assert (a + a2)[1..] == a[1..] + a2;
      } else {
        MergesConcat(all[1..], a, b[1..], all2, a2, b2);
        assert (b + b2)[1..] == b[1..] + b2;
      }
    }
  }

  lemma {:induction false} MergesAlone(all: seq<bytes>)
    ensures Merges(all, all, [])
  {
    if all != [] {
      MergesAlone(all[1..]);
    }
  }

  function Replies(entries: seq<Entry>): seq<bytes> {
    if entries == [] then []
    else (if entries[0].reply.Some? then [entries[0].reply.value] else []) + Replies(entries[1..])
  }

  /** Every frame of two bytes or more that a burst takes off the queue is used exactly once, as a reply or
      forwarded, in the order of arrival; all others stay in the queue. */
  lemma {:induction false} NothingLost(decrypt: bytes -> Option<bytes>, requests: seq<Request>, queue: seq<Arrival>,
              clock: int, latency: nat, timeout: int)
    returns (n: nat)
    requires Serve(decrypt, requests, queue, clock, latency, timeout).Some?
    ensures var s := Serve(decrypt, requests, queue, clock, latency, timeout).value;
            n <= |queue| && s.left == queue[n..] && Merges(Plain(decrypt, queue[..n]), s.forwarded, Replies(s.entries))
    decreases |requests|
  {
    hide Awaited, Merges, Plain;
    n := 0;
    MergesAlone([]);
    assert Plain(decrypt, queue[..0]) == [] by { PlainNothing(decrypt, queue); }
    if requests != [] {
      var a := Awaited(decrypt, requests[0], queue, clock + latency, clock + latency + timeout).value;
      var k := FirstAnswerWins(decrypt, requests[0], queue, clock + latency, clock + latency + timeout);
      var m := NothingLost(decrypt, requests[1..], a.left, a.clock, latency, timeout);
      var rest := Serve(decrypt, requests[1..], a.left, a.clock, latency, timeout).value;
      n := k + m;
      assert queue[..n] == queue[..k] + a.left[..m];
      PlainConcat(decrypt, queue[..k], a.left[..m]);
      OneWindow(a.forwarded, a.reply);
      MergesConcat(Plain(decrypt, queue[..k]), a.forwarded, if a.reply.Some? then [a.reply.value] else [],
                   Plain(decrypt, a.left[..m]), rest.forwarded, Replies(rest.entries));
      assert ([Entry(requests[0].operation, a.reply)] + rest.entries)[1..] == rest.entries;
    }
  }

  lemma PlainNothing(decrypt: bytes -> Option<bytes>, queue: seq<Arrival>)
    ensures Plain(decrypt, queue[..0]) == []
  {}

  lemma OneWindow(forwarded: seq<bytes>, reply: Option<bytes>)
    ensures var last := if reply.Some? then [reply.value] else [];
            Merges(forwarded + last, forwarded, last)
  {
    MergesAlone(forwarded);
    if reply.Some? {
      MergesConcat(forwarded, forwarded, [], [reply.value], [], [reply.value]);
      assert forwarded + [] == forwarded && [] + [reply.value] == [reply.value];
    } else {
      assert forwarded + [] == forwarded;
    }
  }
}
