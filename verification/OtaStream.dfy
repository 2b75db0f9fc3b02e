/** The streaming loop of `run_voice_pack_ota` in its own, imperative form: every run of the loop is a
    run of the machine in module OtaSender, and the loop terminates. */
module OtaStream {
  import opened Bytes
  import opened OtaSender
  import OtaFrames
  import OtaWindow

  /** What one `await` brings: extra delay, and the reports that `drain` handles meanwhile. */
  datatype Turn = Turn(extra: nat, reports: seq<Report>)

  /** The reports of the first `n` awaits. */
  function Arrived(env: nat -> Turn, n: nat): seq<Report> {
    if n == 0 then [] else Arrived(env, n - 1) + env(n - 1).reports
  }

  class VoicePackSender {
    const cfg: Config
    const env: nat -> Turn
    var awaits: nat
    var clock: int
    var blockack: int
    var nak: int
    var nakSeen: int
    var resends: int
    var done: bool
    var stalledAt: Option<int>
    var gi: nat
    var sent: int
    var lastAckN: int
    var lastAckT: int
    var baseAck: int

    ghost var pc: Pc
    ghost var wake: int
    ghost var trace: seq<Tx>
    ghost var start: Sender
    ghost var events: seq<Event>

    ghost function State(): Sender
      reads this
    {
      Sender(pc, clock, wake, blockack, nak, nakSeen, resends, done, stalledAt, gi, sent, lastAckN, lastAckT,
             baseAck, trace)
    }

    /** What has happened so far is a run of the machine. */
    ghost predicate Valid()
      reads this
    {
      IsRun(cfg, start, events, State())
    }

    /** Every report that came so far was handled, in order. */
    ghost predicate Drained()
      reads this`events, this`awaits
    {
      OtaWindow.Received(events) == Arrived(env, awaits)
    }

    constructor (cfg: Config, env: nat -> Turn, clock: int, blockack: int, nak: nat, done: bool)
      ensures Valid() && Drained() && this.cfg == cfg && this.env == env
      ensures State() == start == Start(cfg, clock, blockack, nak, done)
    {
      this.cfg, this.env, this.awaits := cfg, env, 0;
      this.clock, this.blockack, this.nak, this.done := clock, blockack, nak, done;
      this.nakSeen, this.resends, this.stalledAt := 0, 0, None;
      this.gi, this.sent := cfg.resumeFrom, 1;
      this.lastAckN, this.lastAckT := blockack, clock;
      this.baseAck := blockack - cfg.shift;
      this.pc, this.wake, this.trace, this.events := Top, clock, [], [];
      this.start := Start(cfg, clock, blockack, nak, done);
    }

    /** Records the machine event that the preceding assignments carried out. */
    ghost method Log(before: Sender, e: Event)
      requires IsRun(cfg, start, events, before)
      requires CanDo(before, e) && State() == Do(cfg, before, e)
      modifies this`events
      ensures Valid()
      ensures OtaWindow.Received(events) == OtaWindow.Received(old(events)) + if e.Receive? then [e.report] else []
      ensures !e.Receive? && old(Drained()) ==> Drained()
    {
      hide IsRun, Do, CanDo;
      Extend(cfg, start, events, before, e);
      events := events + [e];
      assert events[..|events| - 1] == old(events);
    }

    /** `drain` on one report: an ack, a NAK, the end of the transfer by "success" or "abort", or nothing. */
    method DrainReport(r: Report)
      requires Valid()
      modifies this`blockack, this`nak, this`done, this`events
      ensures Valid() && State() == Drain(old(State()), r)
      ensures var marked := r.channel == Ff92 && |r.raw| >= 2 && r.raw[0] == 0x11;
              && blockack == old(blockack) + (if marked && r.raw[1] == 0x06 then 1 else 0)
              && nak == old(nak) + (if marked && r.raw[1] == 0x15 then 1 else 0)
      ensures done <==> old(done) || (r.channel == Ff92 && (r.json == Success || r.json == Abort))
      ensures OtaWindow.Received(events) == OtaWindow.Received(old(events)) + [r]
    {
      hide IsRun, OtaWindow.Received;
      ghost var before := State();
      OtaWindow.DoReports(cfg, before, Receive(r));
      if r.channel == Ff92 {
        if Take(r.raw, 2) == [0x11, 0x06] {
          blockack := blockack + 1;
        } else if Take(r.raw, 2) == [0x11, 0x15] {
          nak := nak + 1;
        }
        if r.json == Success || r.json == Abort {
          done := true;
        }
      }
      Log(before, Receive(r));
    }

    method DrainReports(reports: seq<Report>)
      requires Valid()
      modifies this`blockack, this`nak, this`done, this`events
      ensures Valid() && OtaWindow.Received(events) == OtaWindow.Received(old(events)) + reports
      ensures blockack >= old(blockack) && nak >= old(nak) && (old(done) ==> done)
    {
      hide Valid, OtaWindow.Received;
      for i := 0 to |reports|
        invariant Valid() && OtaWindow.Received(events) == OtaWindow.Received(old(events)) + reports[..i]
        invariant blockack >= old(blockack) && nak >= old(nak) && (old(done) ==> done)
      {
        DrainReport(reports[i]);
        assert reports[..i + 1] == reports[..i] + [reports[i]];
      }
      assert reports[..|reports|] == reports;
    }

    /** An `await` of at least `ms` milliseconds. */
    method Await(ms: nat)
      requires Valid() && Drained()
      modifies this`awaits, this`clock, this`blockack, this`nak, this`done, this`events
      ensures Valid() && Drained() && clock >= old(clock) + ms && blockack >= old(blockack)
      ensures nak >= old(nak) && (old(done) ==> done)
    {
      hide IsRun, Go, Drain, OtaWindow.Received, Arrived;
      ghost var before := State();
      var turn := env(awaits);
      clock := clock + ms + turn.extra;
      Log(before, Pass(ms + turn.extra));
      awaits := awaits + 1;
      DrainReports(turn.reports);
      NextArrived(env, old(awaits));
    }

    /** One `write_aux` with the pause after it. */
    method WritePart(block: nat, k: nat, again: bool)
      requires Valid() && Drained() && clock >= wake && block < |cfg.groups| && k < |cfg.groups[block]|
      requires pc == if again then Resending(block, k) else Sending(k)
      requires !again ==> block == gi
      modifies this`trace, this`wake, this`pc, this`sent
      modifies this`awaits, this`clock, this`blockack, this`nak, this`done, this`events
      ensures Valid() && Drained() && clock >= wake && clock >= old(clock) && blockack >= old(blockack)
      ensures pc == if again then Resending(block, k + 1) else Sending(k + 1)
      ensures sent == old(sent) + if again then 0 else 1
    {
      hide IsRun, Go, Drained;
      ghost var before := State();
      trace, wake := trace + [Tx(block, k, again)], clock + cfg.delay;
      if again {
        pc := Resending(block, k + 1);
        GoResending(cfg, before, block, k);
      } else {
        sent := sent + 1;
        pc := Sending(k + 1);
        GoSending(cfg, before, k);
      }
      Log(before, Run);
      Await(cfg.delay);
    }

    /** The writes of block `gi`, and the increment after them. */
    method SendBlock()
      requires Valid() && Drained() && pc == Sending(0) && gi < |cfg.groups| && clock >= wake
      modifies this`trace, this`wake, this`pc, this`sent, this`gi
      modifies this`awaits, this`clock, this`blockack, this`nak, this`done, this`events
      ensures Valid() && Drained() && pc == Top && gi == old(gi) + 1 && clock >= wake && blockack >= old(blockack)
      ensures sent == old(sent) + |cfg.groups[old(gi)]|
    {
      hide IsRun, Go, Drained;
      for k := 0 to |cfg.groups[gi]|
        invariant Valid() && Drained() && gi == old(gi) && pc == Sending(k) && clock >= wake
        invariant blockack >= old(blockack) && sent == old(sent) + k
      {
        WritePart(gi, k, false);
      }
      ghost var before := State();
      gi := gi + 1;
      pc := Top;
      GoSent(cfg, before);
      Log(before, Run);
    }

    /** The writes of a NAK retransmission. */
    method ResendBlock(block: nat)
      requires Valid() && Drained() && pc == Resending(block, 0) && block < |cfg.groups| && clock >= wake
      modifies this`trace, this`wake, this`pc, this`sent
      modifies this`awaits, this`clock, this`blockack, this`nak, this`done, this`events
      ensures Valid() && Drained() && pc == Top && clock >= old(clock) && wake <= clock + HOLD_SLEEP
      ensures blockack >= old(blockack) && sent == old(sent)
    {
      hide IsRun, Go, Drained;
      for k := 0 to |cfg.groups[block]|
        invariant Valid() && Drained() && pc == Resending(block, k) && clock >= wake && clock >= old(clock)
        invariant blockack >= old(blockack) && sent == old(sent)
      {
        WritePart(block, k, true);
      }
      ghost var before := State();
      wake, pc := clock + HOLD_SLEEP, Top;
      GoResent(cfg, before, block);
      Log(before, Run);
    }

    /** The retransmission that a NAK earns while the window is full, if any are left. */
    method AnswerNak(confirmed: int, ghost before: Sender)
      requires IsRun(cfg, start, events, before) && CanDo(before, Run) && Drained()
      requires Go(cfg, before) == WhileFull(cfg, State()) && confirmed == Confirmed(State())
      requires pc == Top && clock >= wake && clock - lastAckT <= cfg.stall && nak > nakSeen
      modifies this`trace, this`wake, this`pc, this`sent, this`nakSeen, this`resends
      modifies this`awaits, this`clock, this`blockack, this`nak, this`done, this`events
      ensures Valid() && Drained() && pc == Top && clock >= old(clock) && wake <= clock + HOLD_SLEEP
      ensures blockack >= old(blockack)
    {
      hide IsRun, Go, Drained;
      nakSeen := nak;
      resends := resends + 1;
      if resends <= cfg.maxResends && 0 <= confirmed < |cfg.groups| {
        pc := Resending(confirmed, 0);
        Log(before, Run);
        ResendBlock(confirmed);
      } else {
        wake := clock + HOLD_SLEEP;
        Log(before, Run);
      }
    }

    /** One round of the loop while the window is full: give up after `stall`, or answer a NAK, or
        just wait. `before` is the state at the head of the round. */
    method HoldRound(confirmed: int, ghost before: Sender)
      requires IsRun(cfg, start, events, before) && CanDo(before, Run) && Drained()
      requires Go(cfg, before) == WhileFull(cfg, State()) && confirmed == Confirmed(State())
      requires pc == Top && clock >= wake && stalledAt == None
      modifies this`trace, this`wake, this`pc, this`sent, this`nakSeen, this`resends, this`stalledAt
      modifies this`awaits, this`clock, this`blockack, this`nak, this`done, this`events
      ensures Valid() && Drained() && clock >= wake && blockack >= old(blockack)
      ensures old(clock) - lastAckT > cfg.stall ==>
                pc == Exited && stalledAt == Some(gi + 1)
                && clock == old(clock) && blockack == old(blockack) && done == old(done)
      ensures old(clock) - lastAckT <= cfg.stall ==> pc == Top && stalledAt == None && clock >= old(clock) + 5
    {
      hide IsRun, Go, Drained;
      if clock - lastAckT > cfg.stall {
        stalledAt := Some(gi + 1);
        pc := Exited;
        Log(before, Run);
        return;
      }
      if nak > nakSeen {
        AnswerNak(confirmed, before);
      } else {
        wake := clock + HOLD_SLEEP;
        Log(before, Run);
      }
      Await(HOLD_SLEEP);
    }

    /** Notes an ack that arrived since the last look. */
    method Notice()
      requires lastAckN <= blockack
      modifies this`lastAckN, this`lastAckT
      ensures State() == Note(old(State())) && lastAckN == blockack
      ensures lastAckN == old(lastAckN) ==> lastAckT == old(lastAckT)
    {
      if blockack > lastAckN {
        lastAckN := blockack;
        lastAckT := clock;
      }
    }

    /** One round of the loop. Unless it stalls, it sends a block, or notices a new ack, or uses up
        some of the stall budget. */
    method Round()
      requires Valid() && Drained() && Looping(cfg, State())
      requires clock >= wake && stalledAt == None && lastAckN <= blockack
      modifies this
      ensures Valid() && Drained() && clock >= wake && lastAckN <= blockack
      ensures baseAck == old(baseAck) && start == old(start)
      ensures stalledAt.Some? ==> pc == Exited && stalledAt == Some(gi + 1) && gi == old(gi) && !done
                                  && blockack == lastAckN && clock - lastAckT > cfg.stall
      ensures stalledAt == None ==>
                pc == Top && (gi == old(gi) + 1 || (gi == old(gi) && gi - (lastAckN - baseAck) >= cfg.window))
      ensures stalledAt == None && gi == old(gi) ==>
                (lastAckN > old(lastAckN)
                 || (lastAckN == old(lastAckN) && lastAckT == old(lastAckT) && clock > old(clock)
                     && old(clock) - lastAckT <= cfg.stall))
    {
      hide IsRun, Go, WhileFull, Drained, Note;
      ghost var before := State();
      GoTop(cfg, before);
      var confirmed := blockack - baseAck;
      Notice();
      if gi - confirmed >= cfg.window {
        HoldRound(confirmed, before);
      } else {
        pc := Sending(0);
        Log(before, Run);
        SendBlock();
      }
    }

    /** The loop ends whatever the environment does, because time passes. It ends with all blocks
        sent, or with a final report, or by a stall that lasted more than `stall` since the last
        noticed ack. */
    method Stream()
      requires Valid() && Drained() && pc == Top && clock >= wake && stalledAt == None && lastAckN <= blockack
      modifies this
      ensures Valid() && Drained() && pc == Exited && start == old(start)
      ensures gi >= |cfg.groups| || done || stalledAt == Some(gi + 1)
      ensures stalledAt.Some? ==> stalledAt == Some(gi + 1) && gi < |cfg.groups| && !done
                                  && blockack == lastAckN && clock - lastAckT > cfg.stall
    {
      hide IsRun, Go, Drained;
      while gi < |cfg.groups| && !done
        invariant Valid() && Drained() && pc == Top && clock >= wake && stalledAt == None && lastAckN <= blockack
        invariant start == old(start)
        decreases |cfg.groups| - gi, gi - (lastAckN - baseAck) - cfg.window, cfg.stall - (clock - lastAckT)
      {
        Round();
        if stalledAt.Some? {
          return;
        }
      }
      ghost var before := State();
      GoTop(cfg, before);
      pc := Exited;
      Log(before, Run);
    }
  }

  /** The data phase as the caller sees it: what was sent, and how the loop ended. An unresumed
      transfer that neither stalled nor was ended by a report has sent `total` writes; and it was ended by a report
      exactly when one on ff92 said "success" or "abort", among all that came in the `awaits` awaits of the loop. */
  method RunDataPhase(cfg: Config, env: nat -> Turn, clock: int, blockack: int, nak: nat, done: bool)
    returns (sent: int, total: int, next: nat, stalledAt: Option<int>, ended: bool, ghost awaits: nat)
    requires cfg.resumeFrom <= |cfg.groups|
    ensures total == |OtaFrames.Flatten(cfg.groups)| + 1
    ensures next >= |cfg.groups| || ended || stalledAt == Some(next + 1)
    ensures stalledAt.Some? ==> stalledAt == Some(next + 1) && next < |cfg.groups| && !ended
    ensures cfg.resumeFrom == 0 && !ended && stalledAt == None ==> sent == total
    ensures ended <==> done || OtaWindow.FinalIn(Arrived(env, awaits))
    ensures exists s: Sender :: OtaWindow.Reaches(cfg, s) && s.pc == Exited
              && s.sent == sent && s.gi == next && s.stalledAt == stalledAt && s.done == ended
  {
    hide IsRun, Start, OtaWindow.FinalIn;
    total := 0;
    for i := 0 to |cfg.groups|
      invariant total == |OtaFrames.Flatten(cfg.groups[..i])|
    {
      total := total + |cfg.groups[i]|;
      assert cfg.groups[..i + 1][..i] == cfg.groups[..i];
    }
    assert cfg.groups[..|cfg.groups|] == cfg.groups;
    total := total + 1;
    var sender := new VoicePackSender(cfg, env, clock, blockack, nak, done);
    StartIsTop(cfg, clock, blockack, nak, done);
    sender.Stream();
    ReachedByRun(cfg, clock, blockack, nak, done, sender.events, sender.State());
    OtaWindow.FirstSendsInOrder(cfg, sender.State());
    OtaWindow.ReachesInv(cfg, sender.State());
    EndedByReport(cfg, sender.start, sender.events, sender.State());
    awaits := sender.awaits;
    sent, next, stalledAt, ended := sender.sent, sender.gi, sender.stalledAt, sender.done;
  }

  lemma NextArrived(env: nat -> Turn, n: nat)
    ensures Arrived(env, n + 1) == Arrived(env, n) + env(n).reports
  {}

  lemma EndedByReport(cfg: Config, s: Sender, events: seq<Event>, t: Sender)
    requires IsRun(cfg, s, events, t)
    ensures t.done <==> s.done || OtaWindow.FinalIn(OtaWindow.Received(events))
  {
    OtaWindow.ReportsCounted(cfg, s, events);
  }

  lemma StartIsTop(cfg: Config, clock: int, blockack: int, nak: nat, done: bool)
    ensures var s := Start(cfg, clock, blockack, nak, done);
            s.pc == Top && s.clock >= s.wake && s.stalledAt == None && s.lastAckN <= s.blockack && s.done == done
  {}

  lemma ReachedByRun(cfg: Config, clock: int, blockack: int, nak: nat, done: bool, events: seq<Event>, t: Sender)
    requires IsRun(cfg, Start(cfg, clock, blockack, nak, done), events, t)
    ensures OtaWindow.Reaches(cfg, t)
  {}
}
