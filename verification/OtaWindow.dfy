/** What every run of the streaming loop keeps, whatever reports arrive and however time passes. */
module OtaWindow {
  import opened Bytes
  import opened OtaSender
  import OtaFrames

  /** The writes of the trace that send a block for the first time. */
  function FirstSends(trace: seq<Tx>): seq<Tx> {
    if trace == [] then [] else
      var front, last := FirstSends(trace[..|trace| - 1]), trace[|trace| - 1];
      if last.again then front else front + [last]
  }

  /** The number of block retransmissions begun in the trace. */
  function Retransmissions(trace: seq<Tx>): nat {
    if trace == [] then 0 else
      var last := trace[|trace| - 1];
      Retransmissions(trace[..|trace| - 1]) + if last.again && last.part == 0 then 1 else 0
  }

  function Parts(block: nat, n: nat): (p: seq<Tx>)
    ensures |p| == n
  {
    seq(n, k requires 0 <= k < n => Tx(block, k, false))
  }

  /** Every write of the blocks `from`, ..., `to - 1`, once each and in order. */
  function Schedule(groups: seq<seq<bytes>>, from: nat, upto: nat): seq<Tx>
    requires from < upto ==> upto <= |groups|
  {
    if upto <= from then [] else Schedule(groups, from, upto - 1) + Parts(upto - 1, |groups[upto - 1]|)
  }

  /** The schedule as far as the sender has got. */
  function Progress(cfg: Config, s: Sender): seq<Tx>
    requires cfg.resumeFrom < s.gi ==> s.gi <= |cfg.groups|
  {
    Schedule(cfg.groups, cfg.resumeFrom, s.gi) + if s.pc.Sending? then Parts(s.gi, s.pc.part) else []
  }

  predicate CountersOk(cfg: Config, s: Sender) {
    && s.baseAck + cfg.shift <= s.lastAckN <= s.blockack
    && cfg.resumeFrom <= s.gi && (cfg.resumeFrom < s.gi ==> s.gi <= |cfg.groups|)
    && (cfg.resumeFrom < s.gi ==> s.gi - (s.lastAckN - s.baseAck) <= cfg.window)
  }

  predicate PcOk(cfg: Config, s: Sender) {
    match s.pc
    case Top => true
    case Sending(k) => s.gi < |cfg.groups| && k <= |cfg.groups[s.gi]| && !Holds(cfg, s)
                       && s.gi - (s.lastAckN - s.baseAck) < cfg.window
    case Resending(b, k) => b < |cfg.groups| && k <= |cfg.groups[b]| && b == s.lastAckN - s.baseAck
                            && cfg.window <= s.gi - b && s.gi < |cfg.groups|
    case Exited => s.gi >= |cfg.groups| || s.done || s.stalledAt == Some(s.gi + 1)
  }

  predicate TraceOk(cfg: Config, s: Sender)
    requires cfg.resumeFrom < s.gi ==> s.gi <= |cfg.groups|
  {
    && FirstSends(s.trace) == Progress(cfg, s)
    && s.sent == 1 + |FirstSends(s.trace)|
    && Retransmissions(s.trace) + (if s.pc.Resending? && s.pc.next == 0 then 1 else 0) <= s.resends
    && (Retransmissions(s.trace) <= cfg.maxResends || Retransmissions(s.trace) == 0)
    && (s.pc.Resending? ==> Retransmissions(s.trace) + (if s.pc.next == 0 then 1 else 0) <= cfg.maxResends)
    && (forall i | 0 <= i < |s.trace| && s.trace[i].again :: s.trace[i].block + cfg.window <= s.gi)
  }

  predicate Inv(cfg: Config, s: Sender) {
    CountersOk(cfg, s) && PcOk(cfg, s) && TraceOk(cfg, s)
  }

  lemma SameTrace(cfg: Config, s: Sender, t: Sender)
    requires Inv(cfg, s) && t.trace == s.trace && t.gi == s.gi && t.sent == s.sent && t.pc == s.pc
    requires t.resends == s.resends && t.lastAckN == s.lastAckN && t.baseAck == s.baseAck
    requires t.blockack >= s.blockack && (s.done ==> t.done) && t.stalledAt == s.stalledAt
    ensures Inv(cfg, t)
  {}

  lemma TopKeeps(cfg: Config, s: Sender)
    requires Inv(cfg, s) && s.pc == Top
    ensures Inv(cfg, AtTop(cfg, s))
  {
    hide FirstSends, Retransmissions, Schedule;
  }

  lemma FirstSendsGrow(trace: seq<Tx>, tx: Tx)
    ensures FirstSends(trace + [tx]) == if tx.again then FirstSends(trace) else FirstSends(trace) + [tx]
    ensures Retransmissions(trace + [tx]) == Retransmissions(trace) + if tx.again && tx.part == 0 then 1 else 0
  {
    assert (trace + [tx])[..|trace + [tx]| - 1] == trace;
  }

  lemma PartSent(cfg: Config, s: Sender)
    requires Inv(cfg, s) && s.pc.Sending? && s.pc.part < |cfg.groups[s.gi]|
    ensures Inv(cfg, Go(cfg, s))
  {
    hide FirstSends, Retransmissions, Schedule;
    var tx := Tx(s.gi, s.pc.part, false);
    FirstSendsGrow(s.trace, tx);
    assert Parts(s.gi, s.pc.part + 1) == Parts(s.gi, s.pc.part) + [tx];
    assert Progress(cfg, Go(cfg, s)) == Progress(cfg, s) + [tx];
  }

  lemma BlockSent(cfg: Config, s: Sender)
    requires Inv(cfg, s) && s.pc.Sending? && s.pc.part == |cfg.groups[s.gi]|
    ensures Inv(cfg, Go(cfg, s))
  {
    hide FirstSends, Retransmissions, Parts;
    var t := Go(cfg, s);
    assert Progress(cfg, t) == Schedule(cfg.groups, cfg.resumeFrom, s.gi + 1);
    assert Schedule(cfg.groups, cfg.resumeFrom, s.gi + 1) == Progress(cfg, s);
  }

  lemma SendKeeps(cfg: Config, s: Sender)
    requires Inv(cfg, s) && s.pc.Sending?
    ensures Inv(cfg, Go(cfg, s))
  {
    hide TraceOk, Go;
    if s.pc.part < |cfg.groups[s.gi]| {
      PartSent(cfg, s);
    } else {
      BlockSent(cfg, s);
    }
  }

  lemma PartResent(cfg: Config, s: Sender)
    requires Inv(cfg, s) && s.pc.Resending?
    ensures Inv(cfg, Go(cfg, s))
  {
    hide FirstSends, Retransmissions, Schedule;
    FirstSendsGrow(s.trace, Tx(s.pc.block, s.pc.next, true));
  }

  /** The invariant holds in every reachable state of every run. */
  lemma {:induction false} Reachable(cfg: Config, clock: int, blockack: int, nak: nat, done: bool, events: seq<Event>)
    requires CanDoAll(cfg, Start(cfg, clock, blockack, nak, done), events)
    ensures Inv(cfg, DoAll(cfg, Start(cfg, clock, blockack, nak, done), events))
  {
    hide AtTop, Inv;
    var s := Start(cfg, clock, blockack, nak, done);
    if events == [] {
      StartOk(cfg, clock, blockack, nak, done);
    } else {
      Reachable(cfg, clock, blockack, nak, done, events[..|events| - 1]);
      DoKeeps(cfg, DoAll(cfg, s, events[..|events| - 1]), events[|events| - 1]);
    }
  }

  lemma StartOk(cfg: Config, clock: int, blockack: int, nak: nat, done: bool)
    ensures Inv(cfg, Start(cfg, clock, blockack, nak, done))
  {}

  lemma DoKeeps(cfg: Config, s: Sender, e: Event)
    requires Inv(cfg, s) && CanDo(s, e)
    ensures Inv(cfg, Do(cfg, s, e))
  {
    hide Inv, AtTop;
    match e
    case Run =>
      match s.pc {
        case Top => TopKeeps(cfg, s);
        case Sending(k) => SendKeeps(cfg, s);
        case Resending(b, k) => PartResent(cfg, s);
        case Exited =>
      }
    case Receive(r) =>
      SameTrace(cfg, s, Drain(s, r));
    case Pass(ms) =>
      SameTrace(cfg, s, s.(clock := s.clock + ms));
  }

  // ---------------------------------------------------------------- what the invariant means

  /** How far ahead of the acks since the start the sender may be. In the code `shift` is 0, so a
      resumed transfer has a window of `window - resume_from`. */
  function Effective(cfg: Config): int {
    cfg.window + cfg.shift - cfg.resumeFrom
  }

  /** Acks counted since the data phase started. */
  function Acked(cfg: Config, s: Sender): int {
    Confirmed(s) - cfg.shift
  }

  /** Blocks whose first transmission has begun since the data phase started. */
  function Streamed(cfg: Config, s: Sender): int {
    s.gi - cfg.resumeFrom + if s.pc.Sending? then 1 else 0
  }

  /** A state of some run of the loop. */
  ghost predicate Reaches(cfg: Config, s: Sender) {
    exists clock: int, blockack: int, nak: nat, done: bool, events: seq<Event> ::
      CanDoAll(cfg, Start(cfg, clock, blockack, nak, done), events)
      && s == DoAll(cfg, Start(cfg, clock, blockack, nak, done), events)
  }

  lemma ReachesInv(cfg: Config, s: Sender)
    requires Reaches(cfg, s)
    ensures Inv(cfg, s)
  {
    hide Inv, Start;
    var clock: int, blockack: int, nak: nat, done: bool, events: seq<Event> :|
      CanDoAll(cfg, Start(cfg, clock, blockack, nak, done), events)
      && s == DoAll(cfg, Start(cfg, clock, blockack, nak, done), events);
    Reachable(cfg, clock, blockack, nak, done, events);
  }

  /** Flow control: never more than the effective window ahead of the acks; the sender holds exactly
      when it is that far ahead; and a NAK makes it resend the block `window` before the next one. */
  lemma EffectiveWindow(cfg: Config, s: Sender)
    requires Reaches(cfg, s) && Effective(cfg) >= 1
    ensures Streamed(cfg, s) <= Acked(cfg, s) + Effective(cfg)
    ensures s.pc == Top ==> (Holds(cfg, s) <==> Streamed(cfg, s) == Acked(cfg, s) + Effective(cfg))
    ensures s.pc.Resending? ==> s.pc.block == s.gi - cfg.window
  {
    ReachesInv(cfg, s);
  }

  /** From the start, with any positive window: at most `window` blocks sent and not confirmed, and a
      retransmission repeats a block that was already sent. */
  lemma WindowFromStart(cfg: Config, s: Sender)
    requires Reaches(cfg, s) && cfg.resumeFrom == 0 && cfg.shift == 0 && cfg.window >= 1
    ensures s.gi + (if s.pc.Sending? then 1 else 0) - Confirmed(s) <= cfg.window
    ensures s.pc == Top && Holds(cfg, s) ==> s.gi - Confirmed(s) == cfg.window
    ensures forall i | 0 <= i < |s.trace| && s.trace[i].again :: s.trace[i].block < s.gi
    ensures s.pc.Resending? ==> s.pc.block == s.gi - cfg.window
  {
    EffectiveWindow(cfg, s);
    ReachesInv(cfg, s);
  }

  /** An ack noticed while holding ends the hold: the next step starts the next block. */
  lemma AckEndsHold(cfg: Config, s: Sender)
    requires Reaches(cfg, s) && Effective(cfg) >= 1
    requires s.pc == Top && s.gi < |cfg.groups| && !s.done && s.blockack > s.lastAckN
    ensures AtTop(cfg, s).pc == Sending(0)
  {
    ReachesInv(cfg, s);
  }

  /** Resuming at or past the window: without an ack no block at all is streamed, and the loop can
      only end by stalling on the very first block. */
  lemma ResumeStarves(cfg: Config, s: Sender)
    requires Reaches(cfg, s) && Effective(cfg) <= 0 && Acked(cfg, s) == 0 && !s.done
    ensures s.gi == cfg.resumeFrom && FirstSends(s.trace) == [] && s.sent == 1
    ensures s.pc == Exited && cfg.resumeFrom < |cfg.groups| ==> s.stalledAt == Some(cfg.resumeFrom + 1)
  {
    ReachesInv(cfg, s);
  }

  // ---------------------------------------------------------------- reports

  /** The reports that reached `drain`, in order. */
  function Received(events: seq<Event>): seq<Report> {
    if events == [] then [] else
      var last := events[|events| - 1];
      Received(events[..|events| - 1]) + if last.Receive? then [last.report] else []
  }

  /** How many reports on ff92 begin with 0x11 and this byte. */
  function Marked(reports: seq<Report>, code: byte): nat {
    if reports == [] then 0 else
      var r := reports[|reports| - 1];
      Marked(reports[..|reports| - 1], code)
      + if r.channel == Ff92 && |r.raw| >= 2 && r.raw[0] == 0x11 && r.raw[1] == code then 1 else 0
  }

  /** A report on ff92 whose JSON says "success" or "abort". */
  predicate FinalIn(reports: seq<Report>) {
    exists i | 0 <= i < |reports| ::
      reports[i].channel == Ff92 && (reports[i].json == Success || reports[i].json == Abort)
  }

  lemma OneMarked(reports: seq<Report>, r: Report)
    ensures forall code: byte :: Marked(reports + [r], code) == Marked(reports, code)
              + if r.channel == Ff92 && |r.raw| >= 2 && r.raw[0] == 0x11 && r.raw[1] == code then 1 else 0
    ensures FinalIn(reports + [r]) <==>
              FinalIn(reports) || (r.channel == Ff92 && (r.json == Success || r.json == Abort))
  {
    assert (reports + [r])[..|reports|] == reports;
    assert (reports + [r])[|reports|] == r;
    if FinalIn(reports) {
      var i :| 0 <= i < |reports| && reports[i].channel == Ff92
               && (reports[i].json == Success || reports[i].json == Abort);
      assert (reports + [r])[i] == reports[i];
    }
  }

  lemma DoReports(cfg: Config, s: Sender, e: Event)
    ensures var t := Do(cfg, s, e);
            && (!e.Receive? ==> t.blockack == s.blockack && t.nak == s.nak && t.done == s.done)
            && (e.Receive? ==>
                  var r := e.report;
                  var marked := r.channel == Ff92 && |r.raw| >= 2 && r.raw[0] == 0x11;
                  && t.blockack == s.blockack + (if marked && r.raw[1] == 0x06 then 1 else 0)
                  && t.nak == s.nak + (if marked && r.raw[1] == 0x15 then 1 else 0)
                  && (t.done <==> s.done || (r.channel == Ff92 && (r.json == Success || r.json == Abort))))
  {}

  /** Acks and NAKs are counted, and `done` is raised, by the reports received and by nothing else: whatever else
      happens, in every run. */
  lemma {:induction false} ReportsCounted(cfg: Config, s: Sender, events: seq<Event>)
    ensures var t, reports := DoAll(cfg, s, events), Received(events);
            && t.blockack == s.blockack + Marked(reports, 0x06) && t.nak == s.nak + Marked(reports, 0x15)
            && (t.done <==> s.done || FinalIn(reports))
  {
    hide Do, Marked, FinalIn;
    if events == [] {
      NoneMarked();
    } else {
      var front, last := events[..|events| - 1], events[|events| - 1];
      ReportsCounted(cfg, s, front);
      DoReports(cfg, DoAll(cfg, s, front), last);
      if last.Receive? {
        OneMarked(Received(front), last.report);
      } else {
        assert Received(front) + [] == Received(front);
      }
    }
  }

  lemma NoneMarked()
    ensures Marked([], 0x06) == Marked([], 0x15) == 0 && !FinalIn([])
  {}

  // ---------------------------------------------------------------- NAKs and the end

  /** Each answer uses up a NAK that was counted since the one before. */
  predicate NaksOk(s: Sender) {
    0 <= s.resends <= s.nakSeen <= s.nak && (s.resends == 0 ==> s.nakSeen == 0)
  }

  lemma DoNaks(cfg: Config, s: Sender, e: Event)
    requires NaksOk(s)
    ensures NaksOk(Do(cfg, s, e))
  {}

  /** Never more retransmissions than NAKs received, those before the data phase included. */
  lemma {:induction false} NaksAnswered(cfg: Config, clock: int, blockack: int, nak: nat, done: bool,
                                        events: seq<Event>)
    requires CanDoAll(cfg, Start(cfg, clock, blockack, nak, done), events)
    ensures var t := DoAll(cfg, Start(cfg, clock, blockack, nak, done), events);
            NaksOk(t) && Retransmissions(t.trace) <= t.resends <= t.nak
  {
    hide Do, Inv, Retransmissions;
    RunNaks(cfg, Start(cfg, clock, blockack, nak, done), events);
    Reachable(cfg, clock, blockack, nak, done, events);
    FewerThanResends(cfg, DoAll(cfg, Start(cfg, clock, blockack, nak, done), events));
  }

  lemma {:induction false} RunNaks(cfg: Config, s: Sender, events: seq<Event>)
    requires NaksOk(s)
    ensures NaksOk(DoAll(cfg, s, events))
  {
    hide Do, NaksOk;
    if events != [] {
      RunNaks(cfg, s, events[..|events| - 1]);
      DoNaks(cfg, DoAll(cfg, s, events[..|events| - 1]), events[|events| - 1]);
    }
  }

  lemma FewerThanResends(cfg: Config, s: Sender)
    requires Inv(cfg, s)
    ensures Retransmissions(s.trace) <= s.resends && 0 <= s.blockack - s.baseAck
  {
    hide FirstSends, Retransmissions, Progress;
  }

  /** The head of the loop, in every reachable state. It ends without a stall when all blocks are sent or `done` is
      up; it starts the next block exactly when that is less than `window` ahead of the acks; otherwise it ends with
      a stall exactly when the last ack was noticed more than `stall` ago, answers a NAK not yet seen, if any of
      `max_resends` are left and the block exists, by repeating the block after the confirmed ones, and else sleeps
      for 5 ms. */
  lemma LoopHead(cfg: Config, clock: int, blockack: int, nak: nat, done: bool, events: seq<Event>)
    requires CanDoAll(cfg, Start(cfg, clock, blockack, nak, done), events)
    requires DoAll(cfg, Start(cfg, clock, blockack, nak, done), events).pc == Top
    ensures var s := DoAll(cfg, Start(cfg, clock, blockack, nak, done), events);
            var t, confirmed := Go(cfg, s), s.blockack - s.baseAck;
            var over := s.gi >= |cfg.groups| || s.done;
            var noticed := if s.blockack > s.lastAckN then s.clock else s.lastAckT;
            var full := !over && s.gi - confirmed >= cfg.window;
            var stalls := full && s.clock - noticed > cfg.stall;
            var answers := full && !stalls && s.nak > s.nakSeen && s.resends < cfg.maxResends
                           && confirmed < |cfg.groups|;
            && (t.pc == Exited <==> over || stalls) && t.stalledAt == (if stalls then Some(s.gi + 1) else s.stalledAt)
            && (t.pc == Sending(0) <==> !over && !full)
            && (t.pc.Resending? <==> answers) && (answers ==> t.pc.block == confirmed && t.pc.next == 0)
            && (full && !stalls ==> t.nakSeen == s.nak && t.resends == s.resends + if s.nak > s.nakSeen then 1 else 0)
            && (full && !stalls && !answers ==> t.pc == Top && t.wake == s.clock + 5)
            && (!over ==> t.lastAckN == s.blockack && t.lastAckT == noticed)
  {
    hide Do, DoAll, CanDoAll, Inv, Retransmissions;
    var s := DoAll(cfg, Start(cfg, clock, blockack, nak, done), events);
    NaksAnswered(cfg, clock, blockack, nak, done, events);
    Reachable(cfg, clock, blockack, nak, done, events);
    FewerThanResends(cfg, s);
    NothingUnnoticed(cfg, s);
  }

  lemma NothingUnnoticed(cfg: Config, s: Sender)
    requires Inv(cfg, s)
    ensures s.lastAckN <= s.blockack
  {}

  /** The block under way, if any, and no other. */
  predicate WindsUp(s: Sender, t: Sender) {
    && t.done && (t.pc.Sending? ==> s.pc.Sending? && t.gi == s.gi)
    && t.gi <= s.gi + (if s.pc.Sending? then 1 else 0)
    && Retransmissions(t.trace) + (if t.pc.Resending? && t.pc.next == 0 then 1 else 0)
       <= Retransmissions(s.trace) + (if s.pc.Resending? && s.pc.next == 0 then 1 else 0)
  }

  lemma DoneExits(cfg: Config, s: Sender)
    requires s.done
    ensures AtTop(cfg, s) == s.(pc := Exited)
  {}

  lemma DrainWhenDone(s: Sender, r: Report)
    requires s.done
    ensures var t := Drain(s, r); t == s.(blockack := t.blockack, nak := t.nak)
  {}

  lemma DoWindsUp(cfg: Config, s: Sender, t: Sender, e: Event)
    requires WindsUp(s, t)
    ensures WindsUp(s, Do(cfg, t, e))
  {
    hide Retransmissions, AtTop, Drain;
    match e {
      case Receive(r) => DrainWhenDone(t, r);
      case _ => DoneExits(cfg, t);
    }
    if e.Run? && t.pc.Sending? {
      FirstSendsGrow(t.trace, Tx(t.gi, t.pc.part, false));
    } else if e.Run? && t.pc.Resending? {
      FirstSendsGrow(t.trace, Tx(t.pc.block, t.pc.next, true));
    }
  }

  /** Once a final report was received, no block and no retransmission is begun any more; only what is under way is
      finished. */
  lemma {:induction false} DoneStops(cfg: Config, s: Sender, events: seq<Event>)
    requires s.done
    ensures WindsUp(s, DoAll(cfg, s, events))
  {
    hide Do, Retransmissions, WindsUp;
    if events == [] {
      WindsUpNow(s);
    } else {
      DoneStops(cfg, s, events[..|events| - 1]);
      DoWindsUp(cfg, s, DoAll(cfg, s, events[..|events| - 1]), events[|events| - 1]);
    }
  }

  lemma WindsUpNow(s: Sender)
    requires s.done
    ensures WindsUp(s, s)
  {}

  // ---------------------------------------------------------------- accounting

  lemma {:induction false} SchedulePrefix(groups: seq<seq<bytes>>, from: nat, mid: nat, upto: nat)
    requires mid <= upto <= |groups|
    ensures Schedule(groups, from, mid) <= Schedule(groups, from, upto)
    decreases upto
  {
    if mid < upto {
      SchedulePrefix(groups, from, mid, upto - 1);
    }
  }

  function Payloads(groups: seq<seq<bytes>>, txs: seq<Tx>): (p: seq<bytes>)
    requires forall i | 0 <= i < |txs| :: txs[i].block < |groups| && txs[i].part < |groups[txs[i].block]|
    ensures |p| == |txs|
  {
    seq(|txs|, i requires 0 <= i < |txs| => groups[txs[i].block][txs[i].part])
  }

  predicate InPlan(groups: seq<seq<bytes>>, txs: seq<Tx>) {
    forall i | 0 <= i < |txs| :: txs[i].block < |groups| && txs[i].part < |groups[txs[i].block]|
  }

  /** The schedule of the whole plan carries the plan's writes, in order. */
  lemma {:induction false} ScheduleIsPlan(groups: seq<seq<bytes>>, upto: nat)
    requires upto <= |groups|
    ensures InPlan(groups, Schedule(groups, 0, upto))
    ensures Payloads(groups, Schedule(groups, 0, upto)) == OtaFrames.Flatten(groups[..upto])
  {
    if upto > 0 {
      ScheduleIsPlan(groups, upto - 1);
      assert groups[..upto][..upto - 1] == groups[..upto - 1];
      var txs, part := Schedule(groups, 0, upto - 1), Parts(upto - 1, |groups[upto - 1]|);
      assert Payloads(groups, txs + part) == Payloads(groups, txs) + groups[upto - 1];
    }
  }

  /** First transmissions go out once each, in plan order, and `sent` counts them; an unresumed run
      that gets through all blocks has sent exactly the plan, and `sent` equals `total`. */
  lemma FirstSendsInOrder(cfg: Config, s: Sender)
    requires Reaches(cfg, s) && cfg.resumeFrom <= |cfg.groups|
    ensures FirstSends(s.trace) <= Schedule(cfg.groups, cfg.resumeFrom, |cfg.groups|)
    ensures s.sent == 1 + |FirstSends(s.trace)|
    ensures s.gi == |cfg.groups| ==> FirstSends(s.trace) == Schedule(cfg.groups, cfg.resumeFrom, |cfg.groups|)
    ensures s.gi == |cfg.groups| && cfg.resumeFrom == 0 ==>
              InPlan(cfg.groups, FirstSends(s.trace))
              && Payloads(cfg.groups, FirstSends(s.trace)) == OtaFrames.Flatten(cfg.groups)
              && s.sent == |OtaFrames.Flatten(cfg.groups)| + 1
  {
    hide Inv, FirstSends;
    ReachesInv(cfg, s);
    ProgressOfInv(cfg, s);
    hide Progress, Schedule;
    var n := |cfg.groups|;
    ProgressPrefix(cfg, s);
    if s.gi == n {
      ScheduleIsPlan(cfg.groups, n);
      assert cfg.groups[..n] == cfg.groups;
    }
  }

  lemma ProgressOfInv(cfg: Config, s: Sender)
    requires Inv(cfg, s) && cfg.resumeFrom <= |cfg.groups|
    ensures s.gi <= |cfg.groups| && (s.pc.Sending? ==> s.gi < |cfg.groups| && s.pc.part <= |cfg.groups[s.gi]|)
    ensures cfg.resumeFrom <= s.gi && FirstSends(s.trace) == Progress(cfg, s) && s.sent == 1 + |FirstSends(s.trace)|
  {
    hide FirstSends, Retransmissions, Progress;
  }

  /** The progress of the sender is a prefix of the whole schedule. */
  lemma ProgressPrefix(cfg: Config, s: Sender)
    requires cfg.resumeFrom <= s.gi <= |cfg.groups|
    requires s.pc.Sending? ==> s.gi < |cfg.groups| && s.pc.part <= |cfg.groups[s.gi]|
    ensures Progress(cfg, s) <= Schedule(cfg.groups, cfg.resumeFrom, |cfg.groups|)
    ensures s.gi == |cfg.groups| ==> Progress(cfg, s) == Schedule(cfg.groups, cfg.resumeFrom, |cfg.groups|)
  {
    hide Schedule, Parts;
    var from, n := cfg.resumeFrom, |cfg.groups|;
    if s.pc.Sending? {
      ScheduleStep(cfg.groups, from, s.gi, s.pc.part);
      SchedulePrefix(cfg.groups, from, s.gi + 1, n);
    } else {
      assert Progress(cfg, s) == Schedule(cfg.groups, from, s.gi);
      SchedulePrefix(cfg.groups, from, s.gi, n);
    }
  }

  lemma ScheduleStep(groups: seq<seq<bytes>>, from: nat, g: nat, k: nat)
    requires from <= g < |groups| && k <= |groups[g]|
    ensures Schedule(groups, from, g) + Parts(g, k) <= Schedule(groups, from, g + 1)
  {
    assert Parts(g, k) <= Parts(g, |groups[g]|);
  }

  /** At most `max_resends` retransmissions are ever begun. */
  lemma ResendsBounded(cfg: Config, s: Sender)
    requires Reaches(cfg, s) && cfg.maxResends >= 0
    ensures Retransmissions(s.trace) <= cfg.maxResends
  {
    ReachesInv(cfg, s);
  }
}
