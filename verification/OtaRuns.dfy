/** Building runs: the sender streams with chosen losses, is made to hold with a NAK unanswered, and resends. */
module OtaRuns {
  import opened OtaFrames
  import opened OtaReceiver
  import opened OtaSender
  import opened OtaTransfer
  import opened OtaSafety
  import OtaPacing
  import OtaWindow

  /** Some run passes through `via` and ends in `s`. */
  ghost predicate Reached(p: Setup, via: System, s: System)
    requires Valid(p)
  {
    exists before, after :: CanAll(p, before + after) && After(p, before) == via && After(p, before + after) == s
  }

  lemma BeginReached(p: Setup)
    requires Valid(p)
    ensures Reached(p, Begin(p), Begin(p))
  {
    var none: seq<Action> := [];
    assert none + none == none && CanAll(p, none + none) && After(p, none) == Begin(p);
  }

  lemma OneMore(p: Setup, actions: seq<Action>, a: Action)
    requires Valid(p) && CanAll(p, actions) && Can(p, After(p, actions), a)
    ensures CanAll(p, actions + [a]) && After(p, actions + [a]) == Act(p, After(p, actions), a)
  {
    hide Act, Can;
    assert (actions + [a])[..|actions + [a]| - 1] == actions;
  }

  lemma Then(p: Setup, via: System, s: System, a: Action)
    requires Valid(p) && Reached(p, via, s) && Can(p, s, a)
    ensures Reached(p, via, Act(p, s, a))
  {
    hide Act, Can, CanAll, After;
    var before, after :| CanAll(p, before + after) && After(p, before) == via && After(p, before + after) == s;
    OneMore(p, before + after, a);
    assert before + (after + [a]) == before + after + [a];
  }

  /** From now on `s` is the state passed through. */
  lemma Pause(p: Setup, via: System, s: System)
    requires Valid(p) && Reached(p, via, s)
    ensures Reached(p, s, s)
  {
    hide CanAll, After;
    var before, after :| CanAll(p, before + after) && After(p, before) == via && After(p, before + after) == s;
    assert (before + after) + [] == before + after;
    assert CanAll(p, (before + after) + []) && After(p, (before + after) + []) == s;
  }

  lemma EmittedLater(p: Setup, s: Sender, ms: nat)
    requires Valid(p)
    ensures Emitted(p, s.(clock := s.clock + ms)) == Emitted(p, s)
  {
    hide Blocks, Groups, DataFrames;
  }

  /** When the sender can run next. */
  function Due(s: Sender): int {
    if s.clock < s.wake then s.wake else s.clock
  }

  /** The sender sleeps as long as it has to and runs to its next await; the lock and the reports stay. */
  lemma Proceed(p: Setup, via: System, s: System) returns (t: System)
    requires Valid(p) && Reached(p, via, s) && s.snd.pc != Exited
    ensures Reached(p, via, t) && t.lock == s.lock && t.back == s.back && t.link == s.link + Emitted(p, s.snd)
    ensures t.snd == Go(ConfigOf(p), s.snd.(clock := Due(s.snd)))
  {
    hide Reached, Blocks, Groups, DataFrames, Go, Emitted, ConfigOf;
    var ms: nat := Due(s.snd) - s.snd.clock;
    Then(p, via, s, Elapse(ms));
    var slept := Act(p, s, Elapse(ms));
    Then(p, via, slept, Step);
    t := Act(p, slept, Step);
    EmittedLater(p, s.snd, ms);
  }

  /** The next write of a block. */
  lemma SendPart(p: Setup, via: System, s: System, k: nat) returns (t: System)
    requires Valid(p) && Reached(p, via, s) && s.snd.pc == Sending(k) && k < Parts(p) && s.snd.gi < |DataFrames(p.blob)|
    ensures Reached(p, via, t) && t.lock == s.lock && t.back == s.back
    ensures t.link == s.link + if k + 1 < Parts(p) then []
                               else [Packet(s.snd.gi, s.snd.gi + 1, false, DataFrames(p.blob)[s.snd.gi])]
    ensures t.snd == s.snd.(pc := Sending(k + 1), clock := Due(s.snd), wake := Due(s.snd) + p.delay,
                            trace := t.snd.trace, sent := t.snd.sent)
  {
    hide Reached, Blocks, Groups, DataFrames, Go, Parts;
    GroupsUniform(p);
    GoSending(ConfigOf(p), s.snd.(clock := Due(s.snd)), k);
    t := Proceed(p, via, s);
  }

  /** With the window open, the sender gets its next block onto an empty link, in the shortest time. */
  lemma SendOne(p: Setup, via: System, s: System) returns (t: System)
    requires Valid(p) && Reached(p, via, s) && Looping(ConfigOf(p), s.snd) && !Holds(ConfigOf(p), s.snd) && s.link == []
    requires s.snd.wake <= s.snd.clock
    ensures Reached(p, via, t) && t.lock == s.lock && t.back == s.back && s.snd.gi < |DataFrames(p.blob)|
    ensures t.link == [Packet(s.snd.gi, s.snd.gi + 1, false, DataFrames(p.blob)[s.snd.gi])]
    ensures var c := s.snd.clock + OtaPacing.BlockTime(ConfigOf(p), Parts(p));
            t.snd == Note(s.snd).(gi := s.snd.gi + 1, pc := Top, clock := c, wake := t.snd.wake,
                                  trace := t.snd.trace, sent := t.snd.sent)
            && t.snd.wake <= c
  {
    hide Reached, Blocks, Groups, DataFrames, Go, Parts;
    var cfg, gi, base, parts := ConfigOf(p), s.snd.gi, Note(s.snd), Parts(p);
    GroupsUniform(p);
    t := StartBlock(p, via, s);
    for k := 0 to parts
      invariant Reached(p, via, t) && t.lock == s.lock && t.back == s.back
      invariant t.link == if k < parts then [] else [Packet(gi, gi + 1, false, DataFrames(p.blob)[gi])]
      invariant t.snd == base.(pc := Sending(k), clock := t.snd.clock, wake := t.snd.wake,
                               trace := t.snd.trace, sent := t.snd.sent)
      invariant Due(t.snd) == s.snd.clock + k * cfg.delay
    {
      t := SendPart(p, via, t, k);
      assert (k + 1) * cfg.delay == k * cfg.delay + cfg.delay;
    }
    t := EndBlock(p, via, t);
  }

  lemma StartBlock(p: Setup, via: System, s: System) returns (t: System)
    requires Valid(p) && Reached(p, via, s) && Looping(ConfigOf(p), s.snd) && !Holds(ConfigOf(p), s.snd)
    requires s.snd.wake <= s.snd.clock
    ensures Reached(p, via, t) && t.lock == s.lock && t.back == s.back && t.link == s.link
    ensures t.snd == Note(s.snd).(pc := Sending(0)) && s.snd.gi < |DataFrames(p.blob)|
  {
    hide Reached, Blocks, Groups, DataFrames, Go, Parts;
    GroupsUniform(p);
    GoTop(ConfigOf(p), s.snd);
    t := Proceed(p, via, s);
  }

  lemma EndBlock(p: Setup, via: System, s: System) returns (t: System)
    requires Valid(p) && Reached(p, via, s) && s.snd.pc == Sending(Parts(p)) && s.snd.gi < |DataFrames(p.blob)|
    ensures Reached(p, via, t) && t.lock == s.lock && t.back == s.back && t.link == s.link
    ensures t.snd == s.snd.(gi := s.snd.gi + 1, pc := Top, clock := Due(s.snd))
  {
    hide Reached, Blocks, Groups, DataFrames, Go, Parts;
    GroupsUniform(p);
    GoSent(ConfigOf(p), s.snd.(clock := Due(s.snd)));
    t := Proceed(p, via, s);
  }

  const NAK: Report := Report(Ff92, [0x11, 0x15], NoJson)

  lemma Naked(p: Setup) returns (s: System)
    requires Valid(p)
    ensures Reached(p, Begin(p), s) && s == Begin(p).(snd := Begin(p).snd.(nak := p.nak + 1))
  {
    hide Reached, Blocks, Groups, DataFrames, CanAll, After, Go, Emitted;
    s := Begin(p);
    BeginReached(p);
    Then(p, Begin(p), s, Say(NAK));
    s := Act(p, s, Say(NAK));
    Then(p, Begin(p), s, Hear);
    s := Act(p, s, Hear);
  }

  // ---------------------------------------------------------------- streaming, with chosen losses

  /** On the way: `i` blocks streamed, `a` blocks at the lock, nothing on the link, a NAK unanswered. */
  predicate Underway(p: Setup, s: System, i: nat, a: nat)
    requires Valid(p)
  {
    && s.link == [] && InOrder(s.lock) && Accepted(s) == a
    && s.snd.pc == Top && s.snd.gi == p.resumeFrom + i && !s.snd.done && s.snd.wake <= s.snd.clock
    && s.snd.nak > s.snd.nakSeen && s.snd.resends == 0 && s.snd.baseAck == p.blockack - p.shift
  }

  function Arriving(acks: nat): seq<Report> {
    seq(acks, _ => ACK)
  }

  /** The next block is sent, and the lock gets it or does not. */
  lemma SendAnd(p: Setup, via: System, s: System, i: nat, a: nat, accept: bool) returns (t: System)
    requires Valid(p) && Reached(p, via, s) && Underway(p, s, i, a) && p.resumeFrom + i < |Blocks(p.blob)|
    requires !Holds(ConfigOf(p), s.snd) && (accept ==> a == p.resumeFrom + i)
    ensures Reached(p, via, t) && Underway(p, t, i + 1, if accept then a + 1 else a)
    ensures t.back == s.back + if accept then [ACK] else []
    ensures t.snd.blockack == s.snd.blockack && t.snd.lastAckN == Note(s.snd).lastAckN
    ensures t.snd.lastAckT == Note(s.snd).lastAckT
    ensures t.snd.clock == s.snd.clock + OtaPacing.BlockTime(ConfigOf(p), Parts(p))
  {
    hide Reached, Blocks, Groups, DataFrames, Parts, OtaPacing.BlockTime, Unframe, FrameDataBlock, Go, Emitted;
    t := SendOne(p, via, s);
    if accept {
      FramesOfBlocks(p, a);
      FrameAccepted(a + 1, a + 1, Blocks(p.blob)[a]);
      Then(p, via, t, Deliver);
      t := Act(p, t, Deliver);
    } else {
      Then(p, via, t, Lose);
      t := Act(p, t, Lose);
    }
  }

  /** The first `i` blocks are streamed, and the lock gets those below `target`; no ack is heard. */
  lemma Fill(p: Setup, count: nat, target: nat) returns (s: System)
    requires Valid(p) && p.resumeFrom <= target && p.resumeFrom + count <= |Blocks(p.blob)|
    requires count == 0 || count <= OtaWindow.Effective(ConfigOf(p))
    ensures Reached(p, Begin(p), s) && Underway(p, s, count, Reach(p, count, target))
    ensures s.snd.blockack == s.snd.lastAckN == p.blockack && s.snd.lastAckT == p.clock
    ensures s.snd.clock == p.clock + count * OtaPacing.BlockTime(ConfigOf(p), Parts(p))
    ensures s.back == Arriving(Reach(p, count, target) - p.resumeFrom)
  {
    hide Reached, Blocks, Groups, DataFrames, Parts, OtaPacing.BlockTime;
    s := Naked(p);
    var u := OtaPacing.BlockTime(ConfigOf(p), Parts(p));
    for i := 0 to count
      invariant Reached(p, Begin(p), s) && Underway(p, s, i, Reach(p, i, target))
      invariant s.snd.blockack == s.snd.lastAckN == p.blockack && s.snd.lastAckT == p.clock
      invariant s.snd.clock == p.clock + i * u
      invariant s.back == Arriving(Reach(p, i, target) - p.resumeFrom)
    {
      s := SendAnd(p, Begin(p), s, i, Reach(p, i, target), p.resumeFrom + i < target);
      assert (i + 1) * u == i * u + u;
    }
  }

  /** What the lock has after `i` blocks, if it gets those below `target`. */
  function Reach(p: Setup, i: nat, target: nat): (a: nat)
    requires p.resumeFrom <= target
    ensures a >= p.resumeFrom
  {
    if p.resumeFrom + i < target then p.resumeFrom + i else target
  }

  /** A sender that holds with a NAK to answer, in time, with the lock at `a`. */
  predicate Cornered(p: Setup, s: System, b: nat, a: nat)
    requires Valid(p)
  {
    && s.link == [] && InOrder(s.lock) && Accepted(s) == a
    && Looping(ConfigOf(p), s.snd) && Holds(ConfigOf(p), s.snd) && Confirmed(s.snd) == b
    && s.snd.wake <= s.snd.clock && s.snd.blockack == s.snd.lastAckN && s.snd.clock - s.snd.lastAckT <= p.stall
    && s.snd.nak > s.snd.nakSeen && s.snd.resends == 0
  }

  /** Such a sender resends the block it takes for the oldest. */
  lemma Resend(p: Setup, via: System, s: System, b: nat, a: nat) returns (t: System)
    requires Valid(p) && Reached(p, via, s) && Cornered(p, s, b, a) && p.maxResends >= 1 && b < |DataFrames(p.blob)|
    ensures Reached(p, via, t) && t.lock == s.lock && t.back == s.back
    ensures t.link == [Packet(b, s.snd.gi, true, DataFrames(p.blob)[b])]
    ensures t.snd == s.snd.(pc := Resending(b, Parts(p)), nakSeen := s.snd.nak, resends := 1,
                            clock := t.snd.clock, wake := t.snd.wake, trace := t.snd.trace)
  {
    hide Reached, Blocks, Groups, DataFrames, Go, Parts;
    var cfg, parts := ConfigOf(p), Parts(p);
    GroupsUniform(p);
    GoTop(cfg, s.snd);
    t := Proceed(p, via, s);
    for k := 0 to parts
      invariant Reached(p, via, t) && t.lock == s.lock && t.back == s.back
      invariant t.link == if k < parts then [] else [Packet(b, s.snd.gi, true, DataFrames(p.blob)[b])]
      invariant t.snd == s.snd.(pc := Resending(b, k), nakSeen := s.snd.nak, resends := 1,
                                clock := t.snd.clock, wake := t.snd.wake, trace := t.snd.trace)
    {
      GoResending(cfg, t.snd.(clock := Due(t.snd)), b, k);
      t := Proceed(p, via, t);
    }
  }

  lemma CorneredLock(p: Setup, s: System, b: nat, a: nat)
    requires Valid(p) && Cornered(p, s, b, a)
    ensures Accepted(s) == a
  {}

  // ---------------------------------------------------------------- streaming without a loss

  /** The next block is alone on the link: the lock takes it, and its ack is heard. */
  lemma DeliverAndHear(p: Setup, via: System, s: System, b: nat) returns (t: System)
    requires Valid(p) && Reached(p, via, s) && s.back == [] && b < |DataFrames(p.blob)| && b == Accepted(s)
    requires |s.link| == 1 && s.link[0].block == b && s.link[0].frame == DataFrames(p.blob)[b]
    ensures Reached(p, via, t) && t.link == [] && t.back == [] && Accepted(t) == b + 1
    ensures t.snd == s.snd.(blockack := s.snd.blockack + 1)
  {
    hide Reached, Blocks, Groups, DataFrames, Unframe, FrameDataBlock, Go, Emitted;
    FramesOfBlocks(p, b);
    FrameAccepted(b + 1, b + 1, Blocks(p.blob)[b]);
    Then(p, via, s, Deliver);
    var taken := Act(p, s, Deliver);
    assert taken.back == [ACK];
    Then(p, via, taken, Hear);
    t := Act(p, taken, Hear);
  }

  /** Nothing is on its way: the lock has the `a` blocks that were streamed, and every ack was heard. */
  predicate Flowing(p: Setup, s: System, a: nat)
    requires Valid(p)
  {
    && s.link == [] && s.back == [] && Accepted(s) == a && s.snd.pc == Top && s.snd.gi == a && !s.snd.done
    && s.snd.wake <= s.snd.clock && Confirmed(s.snd) == a - LeastLag(p)
  }

  /** From such a state the lock can get all that is missing, if the window is ever open. */
  lemma Flow(p: Setup, via: System, s: System, a: nat) returns (t: System)
    requires Valid(p) && Reached(p, via, s) && Flowing(p, s, a) && a <= |Blocks(p.blob)|
    requires OtaWindow.Effective(ConfigOf(p)) >= 1 || a == |Blocks(p.blob)|
    ensures Reached(p, via, t) && Accepted(t) == |Blocks(p.blob)|
  {
    hide Reached, Blocks, Groups, DataFrames, Parts, OtaPacing.BlockTime;
    t := s;
    for i := a to |Blocks(p.blob)|
      invariant Reached(p, via, t) && Flowing(p, t, i)
    {
      t := SendOne(p, via, t);
      t := DeliverAndHear(p, via, t, i);
    }
  }
}
