/** The data phase of `run_voice_pack_ota` (ota.py): windowed streaming, NAK retransmission and the
    stall exit, as a machine that yields at every `await`. */
module OtaSender {
  import opened Bytes

  // ---------------------------------------------------------------- ff92 reports

  datatype Channel = Ff64 | Ff92

  /** What `decode_ack` finds in a report: nothing, or a JSON object with this `xfer_statu`. */
  datatype Json = NoJson | Success | Abort | OtherJson

  datatype Report = Report(channel: Channel, raw: bytes, json: Json)

  predicate IsAck(r: Report) {
    r.channel == Ff92 && Take(r.raw, 2) == [0x11, 0x06]
  }

  predicate IsNak(r: Report) {
    r.channel == Ff92 && Take(r.raw, 2) == [0x11, 0x15]
  }

  predicate IsFinal(r: Report) {
    r.channel == Ff92 && (r.json == Success || r.json == Abort)
  }

  // ---------------------------------------------------------------- the machine

  /** Times are in milliseconds. `shift` is what `base_ack` is lowered by: 0 in the code. */
  datatype Config = Config(groups: seq<seq<bytes>>, window: int, stall: int, maxResends: int, delay: nat,
                           resumeFrom: nat, shift: nat)

  /** Where the coroutine is suspended. */
  datatype Pc = Top | Sending(part: nat) | Resending(block: nat, next: nat) | Exited

  /** One data write on ff91. */
  datatype Tx = Tx(block: nat, part: nat, again: bool)

  datatype Sender = Sender(pc: Pc, clock: int, wake: int, blockack: int, nak: int, nakSeen: int, resends: int,
                           done: bool, stalledAt: Option<int>, gi: nat, sent: int, lastAckN: int, lastAckT: int,
                           baseAck: int, trace: seq<Tx>)

  const HOLD_SLEEP: int := 5

  /** The state in which the streaming loop starts, after `blockack` acks and `nak` NAKs. */
  function Start(cfg: Config, clock: int, blockack: int, nak: nat, done: bool): Sender {
    Sender(Top, clock, clock, blockack, nak, 0, 0, done, None, cfg.resumeFrom, 1, blockack, clock,
           blockack - cfg.shift, [])
  }

  /** `drain` on one report. */
  function Drain(s: Sender, r: Report): Sender {
    if r.channel != Ff92 then s else
      var s1 := if IsAck(r) then s.(blockack := s.blockack + 1)
                else if IsNak(r) then s.(nak := s.nak + 1)
                else s;
      if IsFinal(r) then s1.(done := true) else s1
  }

  function Confirmed(s: Sender): int {
    s.blockack - s.baseAck
  }

  predicate Holds(cfg: Config, s: Sender) {
    s.gi - Confirmed(s) >= cfg.window
  }

  /** Noting an ack that arrived since the last look. */
  function Note(s: Sender): Sender {
    if s.blockack > s.lastAckN then s.(lastAckN := s.blockack, lastAckT := s.clock) else s
  }

  /** A round with the window full: the stall exit, the answer to a NAK, or a short sleep. */
  function WhileFull(cfg: Config, s: Sender): Sender {
    if s.clock - s.lastAckT > cfg.stall then
      s.(pc := Exited, stalledAt := Some(s.gi + 1))
    else if s.nak > s.nakSeen then
      var seen := s.(nakSeen := s.nak, resends := s.resends + 1);
      if seen.resends <= cfg.maxResends && 0 <= Confirmed(s) < |cfg.groups| then
        seen.(pc := Resending(Confirmed(s), 0))
      else
        seen.(wake := s.clock + HOLD_SLEEP)
    else
      s.(wake := s.clock + HOLD_SLEEP)
  }

  /** The head of the loop, up to the next `await`. */
  function AtTop(cfg: Config, s: Sender): Sender {
    if s.gi >= |cfg.groups| || s.done then
      s.(pc := Exited)
    else if Holds(cfg, s) then
      WhileFull(cfg, Note(s))
    else
      Note(s).(pc := Sending(0))
  }

  /** The coroutine runs to its next `await`. */
  function Go(cfg: Config, s: Sender): Sender {
    match s.pc
    case Exited => s
    case Top => AtTop(cfg, s)
    case Sending(k) =>
      if s.gi < |cfg.groups| && k < |cfg.groups[s.gi]| then
        s.(trace := s.trace + [Tx(s.gi, k, false)], sent := s.sent + 1, wake := s.clock + cfg.delay,
           pc := Sending(k + 1))
      else
        s.(gi := s.gi + 1, pc := Top)
    case Resending(b, k) =>
      if b < |cfg.groups| && k < |cfg.groups[b]| then
        s.(trace := s.trace + [Tx(b, k, true)], wake := s.clock + cfg.delay, pc := Resending(b, k + 1))
      else
        s.(pc := Top, wake := s.clock + HOLD_SLEEP)
  }

  datatype Event = Run | Receive(report: Report) | Pass(ms: nat)

  predicate CanDo(s: Sender, e: Event) {
    e.Run? ==> s.pc != Exited && s.clock >= s.wake
  }

  function Do(cfg: Config, s: Sender, e: Event): Sender {
    match e
    case Run => Go(cfg, s)
    case Receive(r) => Drain(s, r)
    case Pass(ms) => s.(clock := s.clock + ms)
  }

  function DoAll(cfg: Config, s: Sender, events: seq<Event>): Sender {
    if events == [] then s else Do(cfg, DoAll(cfg, s, events[..|events| - 1]), events[|events| - 1])
  }

  /** The events can happen from `s` in this order. */
  predicate CanDoAll(cfg: Config, s: Sender, events: seq<Event>) {
    events == [] ||
    (CanDoAll(cfg, s, events[..|events| - 1])
     && CanDo(DoAll(cfg, s, events[..|events| - 1]), events[|events| - 1]))
  }

  /** `t` is where the events lead from `s`, and each was possible in its turn. */
  predicate IsRun(cfg: Config, s: Sender, events: seq<Event>, t: Sender) {
    CanDoAll(cfg, s, events) && t == DoAll(cfg, s, events)
  }

  lemma Extend(cfg: Config, s: Sender, events: seq<Event>, t: Sender, e: Event)
    requires IsRun(cfg, s, events, t) && CanDo(t, e)
    ensures IsRun(cfg, s, events + [e], Do(cfg, t, e))
  {
    hide Do, CanDo;
    assert (events + [e])[..|events|] == events;
  }

  lemma GoSending(cfg: Config, s: Sender, k: nat)
    requires s.pc == Sending(k) && s.gi < |cfg.groups| && k < |cfg.groups[s.gi]|
    ensures Go(cfg, s) == s.(trace := s.trace + [Tx(s.gi, k, false)], sent := s.sent + 1,
                             wake := s.clock + cfg.delay, pc := Sending(k + 1))
  {}

  lemma GoSent(cfg: Config, s: Sender)
    requires s.gi < |cfg.groups| && s.pc == Sending(|cfg.groups[s.gi]|)
    ensures Go(cfg, s) == s.(gi := s.gi + 1, pc := Top)
  {}

  lemma GoResending(cfg: Config, s: Sender, b: nat, k: nat)
    requires s.pc == Resending(b, k) && b < |cfg.groups| && k < |cfg.groups[b]|
    ensures Go(cfg, s) == s.(trace := s.trace + [Tx(b, k, true)], wake := s.clock + cfg.delay,
                             pc := Resending(b, k + 1))
  {}

  lemma GoResent(cfg: Config, s: Sender, b: nat)
    requires b < |cfg.groups| && s.pc == Resending(b, |cfg.groups[b]|)
    ensures Go(cfg, s) == s.(pc := Top, wake := s.clock + HOLD_SLEEP)
  {}

  predicate Looping(cfg: Config, s: Sender) {
    s.pc == Top && s.gi < |cfg.groups| && !s.done
  }

  /** The head of the loop, branch by branch. */
  lemma GoTop(cfg: Config, s: Sender)
    requires s.pc == Top
    ensures !Looping(cfg, s) ==> Go(cfg, s) == s.(pc := Exited)
    ensures Looping(cfg, s) && !Holds(cfg, s) ==> Go(cfg, s) == Note(s).(pc := Sending(0))
    ensures Looping(cfg, s) && Holds(cfg, s) ==> Go(cfg, s) == WhileFull(cfg, Note(s))
  {}
}
