/** What a retransmission needs: enough blocks to fill the window, and a stall limit that outlasts the
    pacing of the writes. */
module OtaPacing {
  import opened OtaSender
  import OtaWindow

  /** Every block takes this many writes. */
  predicate Uniform(cfg: Config, parts: nat) {
    parts > 0 && forall i | 0 <= i < |cfg.groups| :: |cfg.groups[i]| == parts
  }

  /** The shortest time in which a block can be sent. */
  function BlockTime(cfg: Config, parts: nat): nat {
    parts * cfg.delay
  }

  /** How many blocks are streamed before the sender first holds, if no ack is heard. */
  function Room(cfg: Config): nat {
    if OtaWindow.Effective(cfg) > 0 then OtaWindow.Effective(cfg) else 0
  }

  /** The shortest time between the last noticed ack and a hold with blocks still to send: a whole window
      when only one block is left after it, otherwise a single block. */
  function ShortestHold(cfg: Config, parts: nat): nat {
    if Room(cfg) == 0 then 0
    else if |cfg.groups| == cfg.resumeFrom + Room(cfg) + 1 then Room(cfg) * BlockTime(cfg, parts)
    else BlockTime(cfg, parts)
  }

  /** Can a NAK ever be answered? */
  predicate Resends(cfg: Config, parts: nat) {
    cfg.maxResends >= 1 && cfg.resumeFrom + Room(cfg) < |cfg.groups| && ShortestHold(cfg, parts) <= cfg.stall
  }

  predicate NothingNoted(cfg: Config, s: Sender) {
    s.lastAckN - s.baseAck == cfg.shift
  }

  /** The pacing of a run that started at time `start`: each block sent since the last noticed ack took its
      time, and so did each block since the start if no ack was noticed. */
  predicate Paced(cfg: Config, parts: nat, start: int, s: Sender) {
    var u := BlockTime(cfg, parts);
    && s.lastAckT <= s.clock && s.resends >= 0
    && (s.pc.Resending? ==> Resends(cfg, parts))
    && (OtaWindow.Effective(cfg) >= 1 && s.gi > cfg.resumeFrom && !s.pc.Sending? ==> s.wake >= s.lastAckT + u)
    && (s.pc.Sending? && s.pc.part > 0 ==> s.wake >= s.lastAckT + s.pc.part * cfg.delay)
    && (NothingNoted(cfg, s) ==>
          s.lastAckT == start
          && s.wake >= start + (s.gi - cfg.resumeFrom) * u + if s.pc.Sending? then s.pc.part * cfg.delay else 0)
  }

  lemma StartPaced(cfg: Config, parts: nat, clock: int, blockack: int, nak: nat, done: bool)
    ensures Paced(cfg, parts, clock, Start(cfg, clock, blockack, nak, done))
  {
    assert 0 * BlockTime(cfg, parts) == 0;
  }

  /** Events other than a step of the sender. */
  lemma OtherPaced(cfg: Config, parts: nat, start: int, s: Sender, t: Sender)
    requires Paced(cfg, parts, start, s)
    requires t == s.(clock := t.clock, blockack := t.blockack, nak := t.nak, done := t.done) && t.clock >= s.clock
    ensures Paced(cfg, parts, start, t)
  {
    hide BlockTime, Resends;
  }

  lemma SendingPaced(cfg: Config, parts: nat, start: int, s: Sender)
    requires Uniform(cfg, parts) && OtaWindow.Inv(cfg, s) && Paced(cfg, parts, start, s)
    requires s.pc.Sending? && s.clock >= s.wake
    ensures Paced(cfg, parts, start, Go(cfg, s))
  {
    hide OtaWindow.TraceOk, Resends;
    var k, u := s.pc.part, BlockTime(cfg, parts);
    assert (k + 1) * cfg.delay == k * cfg.delay + cfg.delay;
    assert (s.gi + 1 - cfg.resumeFrom) * u == (s.gi - cfg.resumeFrom) * u + u;
  }

  lemma ResendingPaced(cfg: Config, parts: nat, start: int, s: Sender)
    requires OtaWindow.Inv(cfg, s) && Paced(cfg, parts, start, s) && s.pc.Resending? && s.clock >= s.wake
    ensures Paced(cfg, parts, start, Go(cfg, s))
  {
    hide OtaWindow.TraceOk, Resends, BlockTime;
  }

  /** A hold: nothing was noticed in this round, so what is answered is old. */
  lemma TopPaced(cfg: Config, parts: nat, start: int, s: Sender)
    requires OtaWindow.Inv(cfg, s) && Paced(cfg, parts, start, s) && s.pc == Top && s.clock >= s.wake
    ensures Paced(cfg, parts, start, Go(cfg, s))
  {
    hide OtaWindow.TraceOk, Resends, BlockTime, AtTop, WhileFull;
    GoTop(cfg, s);
    if Looping(cfg, s) && Holds(cfg, s) {
      HoldPaced(cfg, parts, start, s);
    }
  }

  lemma HoldPaced(cfg: Config, parts: nat, start: int, s: Sender)
    requires OtaWindow.Inv(cfg, s) && Paced(cfg, parts, start, s) && s.pc == Top && s.clock >= s.wake
    requires Looping(cfg, s) && Holds(cfg, s)
    ensures Paced(cfg, parts, start, WhileFull(cfg, Note(s)))
  {
    hide OtaWindow.TraceOk, Resends, BlockTime;
    if WhileFull(cfg, Note(s)).pc.Resending? {
      ResendPossible(cfg, parts, start, s);
    }
  }

  lemma ResendPossible(cfg: Config, parts: nat, start: int, s: Sender)
    requires OtaWindow.Inv(cfg, s) && Paced(cfg, parts, start, s) && s.pc == Top && s.clock >= s.wake
    requires Looping(cfg, s) && Holds(cfg, s) && WhileFull(cfg, Note(s)).pc.Resending?
    ensures Resends(cfg, parts)
  {
    hide OtaWindow.TraceOk, BlockTime;
  }

  lemma DoPaced(cfg: Config, parts: nat, start: int, s: Sender, e: Event)
    requires Uniform(cfg, parts) && OtaWindow.Inv(cfg, s) && Paced(cfg, parts, start, s) && CanDo(s, e)
    ensures Paced(cfg, parts, start, Do(cfg, s, e))
  {
    hide OtaWindow.Inv, Paced, Go, Drain;
    match e
    case Run =>
      match s.pc {
        case Top => TopPaced(cfg, parts, start, s);
        case Sending(_) => SendingPaced(cfg, parts, start, s);
        case Resending(_, _) => ResendingPaced(cfg, parts, start, s);
      }
    case Receive(r) =>
      DrainFrame(s, r);
      OtherPaced(cfg, parts, start, s, Drain(s, r));
    case Pass(ms) =>
      OtherPaced(cfg, parts, start, s, s.(clock := s.clock + ms));
  }

  lemma DrainFrame(s: Sender, r: Report)
    ensures var t := Drain(s, r);
            t == s.(clock := t.clock, blockack := t.blockack, nak := t.nak, done := t.done) && t.clock == s.clock
  {}
}
