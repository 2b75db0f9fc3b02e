/** The exact condition of the safety theorem: the runs on which the lock takes a wrong block, and that
    there are no others. */
module OtaAmbiguity {
  import opened OtaFrames
  import opened OtaReceiver
  import opened OtaSender
  import opened OtaTransfer
  import opened OtaSafety
  import opened OtaRuns
  import OtaPacing
  import OtaWindow

  lemma WrongBlock(p: Setup, s: System)
    requires Valid(p) && Reached(p, Begin(p), s) && !InOrder(s.lock)
    ensures !NeverAmbiguous(p)
  {
    hide CanAll, After, InOrder;
  }

  // ---------------------------------------------------------------- the two failures

  /** With room for more than 256 blocks, losing 256 makes the lock take the next one for the first. */
  lemma OvertakeFails(p: Setup)
    requires Valid(p) && Overtakes(p)
    ensures !NeverAmbiguous(p)
  {
    hide Reached, Blocks, Groups, DataFrames, Parts, OtaPacing.BlockTime, Unframe, FrameDataBlock, Go, Emitted;
    hide NeverAmbiguous;
    var r := p.resumeFrom;
    var s := Fill(p, 256, r);
    s := SendOne(p, Begin(p), s);
    SameNumber(r, r + 256);
    TakesWrong(p, s, r + 256);
  }

  /** A wrong block with the right number byte, alone on the link. */
  lemma TakesWrong(p: Setup, s: System, b: nat)
    requires Valid(p) && Reached(p, Begin(p), s) && |s.link| == 1 && b < |DataFrames(p.blob)|
    requires s.link[0].block == b && s.link[0].frame == DataFrames(p.blob)[b]
    requires b != Accepted(s) && (b + 1) % 256 == (Accepted(s) + 1) % 256
    ensures !NeverAmbiguous(p)
  {
    hide Reached, Blocks, Groups, DataFrames, Unframe, FrameDataBlock, Go, Emitted, NeverAmbiguous;
    FramesOfBlocks(p, b);
    FrameAccepted(b + 1, Accepted(s) + 1, Blocks(p.blob)[b]);
    Then(p, Begin(p), s, Deliver);
    var t := Act(p, s, Deliver);
    assert t.lock.origin[Accepted(s)] == b;
    WrongBlock(p, t);
  }

  /** The lock takes a repeat that is a multiple of 256 blocks behind for the block it needs. */
  lemma RepeatTaken(p: Setup, s: System, b: nat, a: nat)
    requires Valid(p) && Reached(p, Begin(p), s) && Cornered(p, s, b, a) && p.maxResends >= 1
    requires b < a && (a - b) % 256 == 0 && b < |DataFrames(p.blob)|
    ensures !NeverAmbiguous(p)
  {
    hide Reached, Blocks, Groups, DataFrames, NeverAmbiguous, Cornered;
    var t := Resend(p, Begin(p), s, b, a);
    CorneredLock(p, s, b, a);
    SameNumber(b, a);
    TakesWrong(p, t, b);
  }

  /** With one block left after the window, the sender has to hold before it hears any ack. */
  lemma CornerSilent(p: Setup, lag: nat) returns (s: System)
    requires Valid(p) && LeastLag(p) <= lag <= MostLag(p)
    requires var f := OtaPacing.Room(ConfigOf(p));
             p.resumeFrom + f < |Blocks(p.blob)| && f * OtaPacing.BlockTime(ConfigOf(p), Parts(p)) <= p.stall
    ensures Reached(p, Begin(p), s) && Cornered(p, s, p.shift, p.shift + lag)
  {
    hide Reached, Blocks, Groups, DataFrames, Parts, OtaPacing.BlockTime;
    s := Fill(p, OtaPacing.Room(ConfigOf(p)), p.shift + lag);
  }

  /** With more blocks left, an ack heard just before the last block of the window restarts the clock. */
  lemma CornerAcked(p: Setup, lag: nat) returns (s: System)
    requires Valid(p) && LeastLag(p) <= lag <= MostLag(p) && OtaWindow.Effective(ConfigOf(p)) >= 1
    requires p.resumeFrom + OtaPacing.Room(ConfigOf(p)) + 1 < |Blocks(p.blob)|
    requires OtaPacing.BlockTime(ConfigOf(p), Parts(p)) <= p.stall
    ensures Reached(p, Begin(p), s) && Cornered(p, s, p.shift + 1, p.shift + 1 + lag)
  {
    hide Reached, Blocks, Groups, DataFrames, Parts, OtaPacing.BlockTime, Go, Emitted;
    var f, target := OtaPacing.Room(ConfigOf(p)), p.shift + 1 + lag;
    s := Fill(p, f, target);
    assert s.back[0] == ACK;
    Then(p, Begin(p), s, Hear);
    s := Act(p, s, Hear);
    s := SendAnd(p, Begin(p), s, f, Reach(p, f, target), p.resumeFrom + f < target);
  }

  lemma RepeatFails(p: Setup)
    requires Valid(p) && Repeats(p) && Collides(p)
    ensures !NeverAmbiguous(p)
  {
    hide Reached, Blocks, Groups, DataFrames, Parts, OtaPacing.BlockTime, NeverAmbiguous, Cornered;
    var lag: nat, f := FirstMultiple(LeastLag(p)), OtaPacing.Room(ConfigOf(p));
    if f == 0 || |Blocks(p.blob)| == p.resumeFrom + f + 1 {
      assert 0 * OtaPacing.BlockTime(ConfigOf(p), Parts(p)) == 0;
      var s := CornerSilent(p, lag);
      RepeatTaken(p, s, p.shift, p.shift + lag);
    } else {
      var s := CornerAcked(p, lag);
      RepeatTaken(p, s, p.shift + 1, p.shift + 1 + lag);
    }
  }

  // ---------------------------------------------------------------- the theorems

  lemma UnambiguousIsSafe(p: Setup)
    requires Valid(p) && Unambiguous(p)
    ensures NeverAmbiguous(p)
  {
    hide CanAll, After, InOrder, Unambiguous, SysInv;
    forall actions | CanAll(p, actions) ensures InOrder(After(p, actions).lock) {
      AlwaysInv(p, actions);
      InvInOrder(p, After(p, actions));
    }
  }

  lemma InvInOrder(p: Setup, s: System)
    requires Valid(p) && SysInv(p, s)
    ensures InOrder(s.lock)
  {}

  /** For every window, resume point and pacing: no run makes the lock take a wrong block, exactly when first
      transmissions cannot get 256 blocks ahead, and repeats either cannot happen or cannot be a multiple of
      256 blocks behind. */
  lemma ResumeCondition(p: Setup)
    requires Valid(p)
    ensures NeverAmbiguous(p) <==> !Overtakes(p) && !(Repeats(p) && Collides(p))
  {
    hide NeverAmbiguous, Overtakes, Repeats, Collides;
    if Overtakes(p) {
      OvertakeFails(p);
    } else if Repeats(p) && Collides(p) {
      RepeatFails(p);
    } else {
      UnambiguousIsSafe(p);
    }
  }

  /** From the start of the blob: safe exactly when the window is below 256, or the blob has at most 256
      blocks, or the window is 256 and a NAK is never answered, because retransmission is off or the sender
      stalls first. */
  lemma WindowCondition(p: Setup)
    requires Valid(p) && p.resumeFrom == 0
    ensures var n, u := |Blocks(p.blob)|, Parts(p) * p.delay;
            NeverAmbiguous(p) <==>
              p.window < 256 || n <= 256
              || (p.window == 256 && (p.maxResends < 1 || p.stall < (if n == 257 then 256 else 1) * u))
  {
    hide NeverAmbiguous, Blocks, Parts, Groups, DataFrames;
    ResumeCondition(p);
  }
}
