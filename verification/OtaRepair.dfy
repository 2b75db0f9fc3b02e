/** What a retransmission is good for: which block it repeats, seen from the lock, and how many lost blocks
    it can make up for. */
module OtaRepair {
  import opened Bytes
  import opened OtaFrames
  import opened OtaReceiver
  import opened OtaSender
  import opened OtaTransfer
  import opened OtaSafety
  import opened OtaRuns
  import OtaPacing
  import OtaWindow

  // ---------------------------------------------------------------- the block that is repeated

  /** The acks that were lost on their way to the sender. */
  function Missed(p: Setup, actions: seq<Action>): nat
    requires Valid(p)
  {
    if actions == [] then 0 else
      var front, last := actions[..|actions| - 1], actions[|actions| - 1];
      var back := After(p, front).back;
      Missed(p, front) + if last.Miss? && back != [] && IsAck(back[0]) then 1 else 0
  }

  lemma GoQuiet(cfg: Config, s: Sender)
    ensures Go(cfg, s).blockack == s.blockack && Go(cfg, s).baseAck == s.baseAck
  {}

  lemma ActAccounts(p: Setup, s: System, a: Action)
    requires Valid(p) && Can(p, s, a)
    ensures var t, cfg := Act(p, s, a), ConfigOf(p);
            Accepted(t) - OtaWindow.Acked(cfg, t.snd) - Acks(t.back)
            == Accepted(s) - OtaWindow.Acked(cfg, s.snd) - Acks(s.back)
               + if a.Miss? && s.back != [] && IsAck(s.back[0]) then 1 else 0
  {
    hide Blocks, DataFrames, Groups, Emitted, Unframe, Damages, Go;
    match a
    case Step => GoQuiet(ConfigOf(p), s.snd);
    case Deliver => AcksAppend(s.back, ACK);
    case Damage(frame) => AcksAppend(s.back, ACK);
    case Say(report) => AcksAppend(s.back, report);
    case _ =>
  }

  /** Every block the lock accepted on this transfer was acked, and each ack was heard, is on its way, or was
      lost. */
  lemma {:induction false} AcksAccounted(p: Setup, actions: seq<Action>)
    requires Valid(p) && CanAll(p, actions)
    ensures var s := After(p, actions);
            Accepted(s) - p.resumeFrom == OtaWindow.Acked(ConfigOf(p), s.snd) + Acks(s.back) + Missed(p, actions)
  {
    hide Act, Can;
    if actions == [] {
      hide Blocks;
    } else {
      AcksAccounted(p, actions[..|actions| - 1]);
      ActAccounts(p, After(p, actions[..|actions| - 1]), actions[|actions| - 1]);
    }
  }

  /** A NAK answered: the block repeated is, seen from the lock, behind the next one it needs by the acks that
      are on their way or lost, and by `resume_from - shift`. So it is the block the lock needs exactly when the
      base was shifted by `resume_from` and every ack was heard. */
  lemma RetransmitsOldest(p: Setup, actions: seq<Action>)
    requires Valid(p) && CanAll(p, actions)
    requires var s := After(p, actions); CanDo(s.snd, Run) && s.snd.pc == Top && Go(ConfigOf(p), s.snd).pc.Resending?
    ensures var s := After(p, actions);
            var block := Go(ConfigOf(p), s.snd).pc.block;
            var unheard := Acks(s.back) + Missed(p, actions);
            && block == Accepted(s) - unheard - (p.resumeFrom - p.shift)
            && (block == Accepted(s) <==> p.shift == p.resumeFrom && unheard == 0)
  {
    hide After, CanAll, Go, Missed;
    AcksAccounted(p, actions);
    RepeatsConfirmed(ConfigOf(p), After(p, actions).snd);
  }

  lemma RepeatsConfirmed(cfg: Config, s: Sender)
    requires s.pc == Top && Go(cfg, s).pc.Resending?
    ensures Go(cfg, s).pc.block == Confirmed(s)
  {}

  /** Resumed with an unshifted base, nothing that is repeated is ever accepted: every repeat on the link is at
      least `resume_from` blocks behind what the lock needs. */
  lemma ResumedRepeatsUseless(p: Setup, actions: seq<Action>, i: nat)
    requires Valid(p) && Unambiguous(p) && CanAll(p, actions) && LeastLag(p) > 0
    requires i < |After(p, actions).link| && After(p, actions).link[i].again
    ensures var s := After(p, actions);
            s.link[i].block + p.resumeFrom <= Accepted(s) && Unframe(s.link[i].frame, Accepted(s) + 1) == None
  {
    hide After, CanAll, Unambiguous, Unframe, SenderOk, AckOk, Complete, DataFrames;
    AlwaysInv(p, actions);
    var s := After(p, actions);
    LockBounds(p, s);
    OnlyTheRightBlock(p, s, s.link[i]);
  }

  // ---------------------------------------------------------------- counting repeats

  function Repeated(link: seq<Packet>): nat {
    if link == [] then 0 else (if link[0].again then 1 else 0) + Repeated(link[1..])
  }

  lemma {:induction false} RepeatedConcat(a: seq<Packet>, b: seq<Packet>)
    ensures Repeated(a + b) == Repeated(a) + Repeated(b)
  {
    if a == [] {
      assert a + b == b;
    } else {
      assert (a + b)[1..] == a[1..] + b;
      RepeatedConcat(a[1..], b);
    }
  }

  /** A repeat that has begun and is not yet on the link. */
  function Begun(cfg: Config, s: Sender): nat {
    if s.pc.Resending? && s.pc.block < |cfg.groups| && 0 < s.pc.next < |cfg.groups[s.pc.block]| then 1 else 0
  }

  /** Blocks at the lock and repeats under way, less the repeats ever begun. */
  function Score(p: Setup, s: System): int
    requires Valid(p)
  {
    Accepted(s) + Repeated(s.link) + Begun(ConfigOf(p), s.snd) - OtaWindow.Retransmissions(s.snd.trace)
  }

  lemma StepRepeats(p: Setup, s: Sender)
    requires Valid(p) && OtaWindow.Inv(ConfigOf(p), s)
    ensures var cfg := ConfigOf(p);
            var t := Go(cfg, s);
            Repeated(Emitted(p, s)) + Begun(cfg, t) - OtaWindow.Retransmissions(t.trace)
            <= Begun(cfg, s) - OtaWindow.Retransmissions(s.trace)
  {
    hide OtaWindow.Inv, DataFrames, Groups, OtaWindow.Retransmissions, Emitted, Go, AtTop;
    GroupsNonEmpty(p);
    match s.pc
    case Top =>
      TopTrace(ConfigOf(p), s);
      NothingRepeated(p, s);
    case Exited =>
      NothingRepeated(p, s);
    case Sending(k) =>
      SendingTrace(ConfigOf(p), s);
      NothingRepeated(p, s);
    case Resending(b, k) =>
      ResendingTrace(p, s);
  }

  lemma NothingRepeated(p: Setup, s: Sender)
    requires Valid(p) && !s.pc.Resending?
    ensures Repeated(Emitted(p, s)) == 0 && (s.pc.Exited? ==> Go(ConfigOf(p), s) == s)
  {
    hide DataFrames, Groups;
  }

  lemma SendingTrace(cfg: Config, s: Sender)
    requires OtaWindow.Inv(cfg, s) && s.pc.Sending?
    ensures Begun(cfg, Go(cfg, s)) == 0
    ensures OtaWindow.Retransmissions(Go(cfg, s).trace) == OtaWindow.Retransmissions(s.trace)
  {
    hide OtaWindow.TraceOk, OtaWindow.Retransmissions, OtaWindow.FirstSends;
    if s.pc.part < |cfg.groups[s.gi]| {
      OtaWindow.FirstSendsGrow(s.trace, Tx(s.gi, s.pc.part, false));
    }
  }

  /** The repeat is counted with its first write, and on the link with its last. */
  lemma ResendingTrace(p: Setup, s: Sender)
    requires Valid(p) && OtaWindow.Inv(ConfigOf(p), s) && s.pc.Resending?
    ensures var cfg := ConfigOf(p);
            var t := Go(cfg, s);
            Repeated(Emitted(p, s)) + Begun(cfg, t) - OtaWindow.Retransmissions(t.trace)
            <= Begun(cfg, s) - OtaWindow.Retransmissions(s.trace)
  {
    hide OtaWindow.TraceOk, OtaWindow.Retransmissions, OtaWindow.FirstSends, DataFrames, Groups;
    var cfg, b, k := ConfigOf(p), s.pc.block, s.pc.next;
    GroupsNonEmpty(p);
    if k < |cfg.groups[b]| {
      GoResending(cfg, s, b, k);
      OtaWindow.FirstSendsGrow(s.trace, Tx(b, k, true));
    } else {
      GoResent(cfg, s, b);
    }
  }

  lemma TopTrace(cfg: Config, s: Sender)
    requires s.pc == Top
    ensures Go(cfg, s).trace == s.trace && Begun(cfg, Go(cfg, s)) == 0
  {}

  lemma GroupsNonEmpty(p: Setup)
    requires Valid(p)
    ensures |ConfigOf(p).groups| == |DataFrames(p.blob)|
    ensures forall i | 0 <= i < |ConfigOf(p).groups| :: |ConfigOf(p).groups[i]| > 0
  {
    hide DataFrames, Prefixed, Chunks;
  }

  // ---------------------------------------------------------------- a lost block

  /** The block the lock needs was sent, and its first transmission is no longer on its way. */
  predicate Lost(p: Setup, s: System)
    requires Valid(p)
  {
    Accepted(s) < Complete(ConfigOf(p), s.snd)
    && forall i | 0 <= i < |s.link| && !s.link[i].again :: s.link[i].block != Accepted(s)
  }

  /** The only case in which the sender can make up for a lost block: it holds after every block, takes the
      right block for the oldest, and can answer a NAK in time. */
  predicate Recovers(p: Setup)
    requires Valid(p)
  {
    p.window == 1 && LeastLag(p) == 0 && Repeats(p)
  }

  /** No repeat can be the block that the lock needs. */
  predicate Useless(p: Setup)
    requires Valid(p)
  {
    LeastLag(p) > 0 || !Repeats(p)
  }

  /** A lost block stays lost: whatever happens, no first transmission is accepted again, because the sender
      is too far ahead; only a repeat can bring the lock on, by one block, to the next lost one. */
  predicate Gains(p: Setup, s: System, t: System)
    requires Valid(p)
  {
    Lost(p, t) && Score(p, t) <= Score(p, s) && (Useless(p) ==> Accepted(t) == Accepted(s))
  }

  lemma StepLost(p: Setup, s: System)
    requires Valid(p) && Unambiguous(p) && SysInv(p, s) && Lost(p, s) && CanDo(s.snd, Run)
    ensures Gains(p, s, Act(p, s, Step))
  {
    var cfg, out, t := ConfigOf(p), Emitted(p, s.snd), Act(p, s, Step);
    SenderOfSys(p, s);
    CompleteGrows(cfg, s.snd);
    EmittedShort(p, s.snd);
    StepRepeats(p, s.snd);
    RepeatedConcat(s.link, out);
    if out != [] {
      EmittedOk(p, s);
      FirstAhead(p, t, out[0]);
    }
    hide Blocks, DataFrames, SysInv, PacketOk, Groups, Emitted, Complete, Go, Repeated, Begun, Unambiguous;
    hide Useless, Recovers;
    hide OtaWindow.Inv, OtaWindow.Retransmissions;
    LostGrows(p, s, t, out);
  }

  lemma FirstAhead(p: Setup, s: System, q: Packet)
    requires Valid(p) && PacketOk(p, s, q)
    ensures !q.again ==> q.high == q.block + 1
  {}

  lemma LostGrows(p: Setup, s: System, t: System, out: seq<Packet>)
    requires Valid(p) && Lost(p, s) && Accepted(t) == Accepted(s) && t.link == s.link + out && |out| <= 1
    requires Complete(ConfigOf(p), s.snd) <= Complete(ConfigOf(p), t.snd)
    requires out != [] && !out[0].again ==> out[0].block >= Complete(ConfigOf(p), s.snd)
    ensures Lost(p, t)
  {
    hide Complete, Groups, DataFrames;
    forall i | 0 <= i < |t.link| && !t.link[i].again ensures t.link[i].block != Accepted(t) {
      if i < |s.link| {
        assert t.link[i] == s.link[i];
      }
    }
  }

  /** The head of the link is gone, accepted or not. */
  lemma HeadLost(p: Setup, s: System)
    requires Valid(p) && Lost(p, s) && s.link != []
    ensures Gains(p, s, s.(link := s.link[1..]))
  {
    hide Complete, Begun, OtaWindow.Retransmissions, Groups, DataFrames;
    forall i | 0 <= i < |s.link| - 1 ensures s.link[1..][i] == s.link[i + 1] {}
  }

  /** A repeat that is accepted: the first transmission of the block after it went out before the repeat, and
      nothing but repeats follows it until its ack is heard. */
  lemma RepeatAccepted(p: Setup, s: System, t: System)
    requires Valid(p) && SysInv(p, s) && Lost(p, s) && s.link != [] && s.link[0].block == Accepted(s) && p.window >= 2
    requires t.snd == s.snd && t.link == s.link[1..] && Accepted(t) == Accepted(s) + 1
    requires !Useless(p)
    ensures Gains(p, s, t)
  {
    hide Blocks, DataFrames, SenderOk, Groups, Complete, LockOk, AckOk, Begun, OtaWindow.Retransmissions;
    hide OtaPacing.Resends;
    var head := s.link[0];
    assert PacketOk(p, s, head) && head.again;
    forall i | 0 <= i < |t.link| ensures t.link[i].again {
      assert t.link[i] == s.link[i + 1] && Ordered(head, s.link[i + 1]) && PacketOk(p, s, s.link[i + 1]);
    }
  }

  lemma ArriveLost(p: Setup, s: System, frame: bytes)
    requires Valid(p) && Unambiguous(p) && SysInv(p, s) && Lost(p, s) && s.link != []
    requires frame == s.link[0].frame || Damages(s.link[0].frame, frame)
    requires !Recovers(p)
    ensures Gains(p, s, Arrive(s.(link := s.link[1..]), frame, s.link[0].block))
  {
    hide Unframe, Damages, SysInv, PacketOk, Gains, Lost, Blocks, DataFrames, Unambiguous, Useless, Recovers;
    HeadOk(p, s);
    LockBounds(p, s);
    HeadLost(p, s);
    if Damages(s.link[0].frame, frame) {
      DamagedHeadRejected(p, s, frame);
    } else {
      OnlyTheRightBlock(p, s, s.link[0]);
      if s.link[0].block == Accepted(s) {
        NeededHeadIsRepeat(p, s);
        RepeatAccepted(p, s, Arrive(s.(link := s.link[1..]), frame, s.link[0].block));
      }
    }
  }

  lemma NeededHeadIsRepeat(p: Setup, s: System)
    requires Valid(p) && Lost(p, s) && s.link != [] && PacketOk(p, s, s.link[0]) && s.link[0].block == Accepted(s)
    ensures s.link[0].again && !Useless(p) && (!Recovers(p) ==> p.window >= 2)
  {
    hide Complete, DataFrames, Groups, OtaPacing.Resends;
  }

  lemma OtherLost(p: Setup, s: System, a: Action)
    requires Valid(p) && SysInv(p, s) && Lost(p, s) && Can(p, s, a) && !a.Step? && !a.Deliver? && !a.Lose? && !a.Damage?
    ensures Gains(p, s, Act(p, s, a))
  {
    hide Blocks, DataFrames, Groups, Go, Emitted, LockOk, LinkOk, AckOk, OtaWindow.Retransmissions;
    var t := Act(p, s, a);
    if a.Hear? {
      OtaPacing.DrainFrame(s.snd, s.back[0]);
    }
    hide SenderOk, Drain, IsAck;
    SameProgress(p, s.snd, t.snd);
  }

  lemma SameProgress(p: Setup, s: Sender, t: Sender)
    requires Valid(p) && t == s.(clock := t.clock, blockack := t.blockack, nak := t.nak, done := t.done)
    ensures Complete(ConfigOf(p), t) == Complete(ConfigOf(p), s) && Begun(ConfigOf(p), t) == Begun(ConfigOf(p), s)
  {
    hide Groups, DataFrames;
  }

  lemma ActLost(p: Setup, s: System, a: Action)
    requires Valid(p) && Unambiguous(p) && SysInv(p, s) && Lost(p, s) && Can(p, s, a)
    requires !Recovers(p)
    ensures Gains(p, s, Act(p, s, a))
  {
    hide SysInv, Lost, Gains, Damages, Arrive, Unambiguous, Useless, Recovers;
    match a
    case Step => StepLost(p, s);
    case Deliver => ArriveLost(p, s, s.link[0].frame);
    case Damage(frame) => ArriveLost(p, s, frame);
    case Lose => HeadLost(p, s);
    case _ => OtherLost(p, s, a);
  }

  // ---------------------------------------------------------------- the budget

  /** Never more repeats under way than were begun. */
  lemma ActBudget(p: Setup, s: System, a: Action)
    requires Valid(p) && OtaWindow.Inv(ConfigOf(p), s.snd) && Can(p, s, a)
    ensures Score(p, Act(p, s, a)) - Accepted(Act(p, s, a)) <= Score(p, s) - Accepted(s)
  {
    hide Blocks, DataFrames, Groups, Go, Emitted, OtaWindow.Retransmissions, OtaWindow.Inv, Unframe, Damages, Drain;
    match a
    case Step =>
      StepRepeats(p, s.snd);
      RepeatedConcat(s.link, Emitted(p, s.snd));
    case Hear =>
      OtaPacing.DrainFrame(s.snd, s.back[0]);
      SameProgress(p, s.snd, Act(p, s, a).snd);
    case Elapse(ms) => SameProgress(p, s.snd, Act(p, s, a).snd);
    case _ =>
  }

  lemma {:induction false} Budget(p: Setup, actions: seq<Action>)
    requires Valid(p) && Unambiguous(p) && CanAll(p, actions)
    ensures Score(p, After(p, actions)) <= Accepted(After(p, actions))
  {
    hide Act, Can, SysInv, Unambiguous, Score;
    if actions == [] {
      BeginScore(p);
    } else {
      var front := actions[..|actions| - 1];
      Budget(p, front);
      AlwaysInv(p, front);
      SenderOfSys(p, After(p, front));
      ActBudget(p, After(p, front), actions[|actions| - 1]);
    }
  }

  lemma SenderOfSys(p: Setup, s: System)
    requires Valid(p) && SysInv(p, s)
    ensures OtaWindow.Inv(ConfigOf(p), s.snd)
  {}

  lemma BeginScore(p: Setup)
    requires Valid(p)
    ensures Score(p, Begin(p)) == Accepted(Begin(p))
  {
    hide Blocks, DataFrames, Groups;
  }

  // ---------------------------------------------------------------- the theorem

  lemma {:induction false} StaysLost(p: Setup, before: seq<Action>, after: seq<Action>)
    requires Valid(p) && Unambiguous(p) && CanAll(p, before + after) && Lost(p, After(p, before))
    requires !Recovers(p)
    ensures Gains(p, After(p, before), After(p, before + after))
  {
    hide Act, Can, CanAll, After, SysInv, Lost, Unambiguous, Score, Useless, Recovers;
    if after == [] {
      assert before + after == before;
    } else {
      var front, last := after[..|after| - 1], after[|after| - 1];
      assert before + after == before + front + [last];
      RunSplits(p, before + front, last);
      StaysLost(p, before, front);
      AlwaysInv(p, before + front);
      ActLost(p, After(p, before + front), last);
    }
  }

  lemma RunSplits(p: Setup, front: seq<Action>, last: Action)
    requires Valid(p) && CanAll(p, front + [last])
    ensures CanAll(p, front) && Can(p, After(p, front), last)
    ensures After(p, front + [last]) == Act(p, After(p, front), last)
  {
    hide Act, Can;
    assert (front + [last])[..|front + [last]| - 1] == front;
  }

  lemma {:induction false} PrefixCan(p: Setup, before: seq<Action>, after: seq<Action>)
    requires Valid(p) && CanAll(p, before + after)
    ensures CanAll(p, before)
  {
    hide Act, Can, After;
    if after == [] {
      assert before + after == before;
    } else {
      assert (before + after)[..|before + after| - 1] == before + after[..|after| - 1];
      PrefixCan(p, before, after[..|after| - 1]);
    }
  }

  /** A first transmission that is lost when the lock needs it dooms the transfer, unless the sender recovers:
      whatever happens, the lock never gets the whole image. It gets at most one more block for each repeat that
      is left, and none at all when no repeat can be of use. */
  lemma LossDooms(p: Setup, before: seq<Action>, after: seq<Action>)
    requires Valid(p) && Unambiguous(p) && CanAll(p, before + after) && Lost(p, After(p, before))
    requires !Recovers(p)
    ensures Accepted(After(p, before + after)) < |Blocks(p.blob)|
    ensures var gained := Accepted(After(p, before + after)) - Accepted(After(p, before));
            gained <= if Useless(p) then 0 else p.maxResends
  {
    hide CanAll, After, Unambiguous, SysInv, Score, Lost, Recovers, Blocks;
    PrefixCan(p, before, after);
    Budget(p, before);
    StaysLost(p, before, after);
    AlwaysInv(p, before + after);
    LostIsShort(p, After(p, before + after));
    FewResends(p, After(p, before + after));
    if !Useless(p) {
      RepeatsBegin(p);
    }
  }

  lemma RepeatsBegin(p: Setup)
    requires Valid(p) && !Useless(p)
    ensures p.maxResends >= 1
  {}

  lemma LostIsShort(p: Setup, s: System)
    requires Valid(p) && SysInv(p, s) && Lost(p, s)
    ensures Accepted(s) < |Blocks(p.blob)|
  {
    hide LinkOk, LockOk, AckOk, OtaPacing.Paced, OtaWindow.TraceOk, DataFrames;
    GroupsNonEmpty(p);
  }

  lemma FewResends(p: Setup, s: System)
    requires Valid(p) && SysInv(p, s)
    ensures Score(p, s) >= Accepted(s) - if p.maxResends < 0 then 0 else p.maxResends
  {
    hide OtaWindow.Retransmissions, LinkOk, LockOk, AckOk, OtaPacing.Paced, Groups, DataFrames, Begun, Repeated;
  }

  /** Losing the block the lock waits for is such a loss. */
  lemma LoseLoses(p: Setup, actions: seq<Action>)
    requires Valid(p) && Unambiguous(p) && CanAll(p, actions)
    requires var s := After(p, actions); s.link != [] && !s.link[0].again && s.link[0].block == Accepted(s)
    ensures Lost(p, Act(p, After(p, actions), Lose))
  {
    hide After, CanAll, SenderOk, LockOk, AckOk, Complete, DataFrames, Groups, Unambiguous;
    AlwaysInv(p, actions);
    var s := After(p, actions);
    var t := Act(p, s, Lose);
    assert PacketOk(p, s, s.link[0]);
    forall i | 0 <= i < |t.link| && !t.link[i].again ensures t.link[i].block != Accepted(t) {
      assert t.link[i] == s.link[i + 1] && Ordered(s.link[0], s.link[i + 1]) && PacketOk(p, s, s.link[i + 1]);
    }
  }

  // ---------------------------------------------------------------- when a loss can be repaired

  /** The state after a lost first block, with a NAK unanswered. */
  lemma LoseFirst(p: Setup) returns (s: System)
    requires Valid(p) && OtaWindow.Effective(ConfigOf(p)) >= 1 && p.resumeFrom < |Blocks(p.blob)|
    ensures Reached(p, Begin(p), s) && Underway(p, s, 1, p.resumeFrom) && s.back == [] && Lost(p, s)
    ensures s.snd.blockack == s.snd.lastAckN == p.blockack && s.snd.lastAckT == p.clock
    ensures s.snd.clock == p.clock + OtaPacing.BlockTime(ConfigOf(p), Parts(p))
  {
    hide Reached, Blocks, Groups, DataFrames, Parts, OtaPacing.BlockTime;
    s := Fill(p, 1, p.resumeFrom);
    assert s.back == [];
  }

  /** On some run the block that the lock needs is lost. */
  ghost predicate CanLose(p: Setup)
    requires Valid(p)
  {
    exists actions :: CanAll(p, actions) && Lost(p, After(p, actions))
  }

  lemma LostRun(p: Setup)
    requires Valid(p) && OtaWindow.Effective(ConfigOf(p)) >= 1 && p.resumeFrom < |Blocks(p.blob)|
    ensures CanLose(p)
  {
    hide CanAll, After, Lost;
    var s := LoseFirst(p);
    var before, after :| CanAll(p, before + after) && After(p, before + after) == s;
    assert Lost(p, After(p, before + after));
  }

  /** A block can be lost exactly when one can be sent. */
  lemma LossPossible(p: Setup)
    requires Valid(p) && Unambiguous(p)
    ensures CanLose(p) <==> OtaWindow.Effective(ConfigOf(p)) >= 1 && p.resumeFrom < |Blocks(p.blob)|
  {
    hide CanAll, After, Lost, Unambiguous, Blocks;
    if OtaWindow.Effective(ConfigOf(p)) >= 1 && p.resumeFrom < |Blocks(p.blob)| {
      LostRun(p);
    } else if CanLose(p) {
      var actions :| CanAll(p, actions) && Lost(p, After(p, actions));
      AlwaysInv(p, actions);
      LostWasSent(p, After(p, actions));
    }
  }

  lemma LostWasSent(p: Setup, s: System)
    requires Valid(p) && SysInv(p, s) && Lost(p, s)
    ensures OtaWindow.Effective(ConfigOf(p)) >= 1 && p.resumeFrom < |Blocks(p.blob)|
  {
    hide LinkOk, AckOk, OtaPacing.Paced, OtaWindow.Inv, DataFrames, Blocks, Groups;
    LostIsShort(p, s);
  }

  /** The block that the lock needs is lost on some run, which yet brings the lock the whole image. */
  ghost predicate Repairable(p: Setup)
    requires Valid(p)
  {
    exists before, after :: CanAll(p, before + after) && Lost(p, After(p, before))
                            && Accepted(After(p, before + after)) == |Blocks(p.blob)|
  }

  /** The repeat of the lost block is taken in, and the sender is back at the head of its loop. */
  lemma TakesRepeat(p: Setup, s: System) returns (t: System)
    requires Valid(p) && Recovers(p) && Reached(p, s, s) && Underway(p, s, 1, p.resumeFrom) && s.back == []
    requires s.snd.blockack == s.snd.lastAckN == p.blockack && s.snd.lastAckT == p.clock
    requires s.snd.clock == p.clock + OtaPacing.BlockTime(ConfigOf(p), Parts(p))
    ensures Reached(p, s, t) && Flowing(p, t, p.resumeFrom + 1)
  {
    hide Reached, Blocks, Groups, DataFrames, Parts, OtaPacing.BlockTime, Go;
    var r := p.resumeFrom;
    GroupsUniform(p);
    assert Cornered(p, s, r, r);
    t := Resend(p, s, s, r, r);
    t := DeliverAndHear(p, s, t, r);
    GoResent(ConfigOf(p), t.snd.(clock := Due(t.snd)), r);
    t := Proceed(p, s, t);
    Then(p, s, t, Elapse(HOLD_SLEEP));
    t := Act(p, t, Elapse(HOLD_SLEEP));
  }

  lemma RepairRun(p: Setup)
    requires Valid(p) && Recovers(p)
    ensures Repairable(p)
  {
    hide CanAll, After, Lost, Blocks, DataFrames, Groups, Parts, OtaPacing.BlockTime;
    var s := LoseFirst(p);
    Pause(p, Begin(p), s);
    var t := TakesRepeat(p, s);
    t := Flow(p, s, t, p.resumeFrom + 1);
    var before, after :| CanAll(p, before + after) && After(p, before) == s && After(p, before + after) == t;
  }

  /** A lost block can be made up for exactly when the window is 1, the base is at the resume point,
      retransmission is on, a block is left after the lost one, and the stall limit outlasts a block. */
  lemma RepairCondition(p: Setup)
    requires Valid(p) && Unambiguous(p)
    ensures Repairable(p) <==>
              p.window == 1 && p.shift == p.resumeFrom
              && p.maxResends >= 1 && p.resumeFrom + 1 < |Blocks(p.blob)| && Parts(p) * p.delay <= p.stall
  {
    hide CanAll, After, Lost, Unambiguous, Recovers, Blocks, Parts;
    RecoversWhen(p);
    if Recovers(p) {
      RepairRun(p);
    } else {
      forall before, after | CanAll(p, before + after) && Lost(p, After(p, before))
        ensures Accepted(After(p, before + after)) < |Blocks(p.blob)|
      {
        LossDooms(p, before, after);
      }
    }
  }

  lemma RecoversWhen(p: Setup)
    requires Valid(p)
    ensures Recovers(p) <==>
              p.window == 1 && p.shift == p.resumeFrom
              && p.maxResends >= 1 && p.resumeFrom + 1 < |Blocks(p.blob)| && Parts(p) * p.delay <= p.stall
  {
    hide Parts, Blocks;
  }
}
