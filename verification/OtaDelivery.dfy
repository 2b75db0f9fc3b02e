/** What arrives without a loss: first transmissions follow one another without a gap, from the block the lock
    needs to the last one sent, so what was sent and is no longer on the link is at the lock. */
module OtaDelivery {
  import opened OtaFrames
  import opened OtaReceiver
  import opened OtaSender
  import opened OtaTransfer
  import opened OtaSafety
  import opened OtaRuns
  import OtaWindow

  // ---------------------------------------------------------------- first transmissions on the link

  /** The blocks of the first transmissions, in order. */
  function Firsts(link: seq<Packet>): seq<nat> {
    if link == [] then [] else (if link[0].again then [] else [link[0].block]) + Firsts(link[1..])
  }

  lemma {:induction false} FirstsConcat(a: seq<Packet>, b: seq<Packet>)
    ensures Firsts(a + b) == Firsts(a) + Firsts(b)
  {
    if a == [] {
      assert a + b == b;
    } else {
      assert (a + b)[1..] == a[1..] + b;
      FirstsConcat(a[1..], b);
    }
  }

  /** The foremost first transmission. */
  lemma {:induction false} Foremost(link: seq<Packet>) returns (i: nat)
    requires Firsts(link) != []
    ensures i < |link| && !link[i].again && link[i].block == Firsts(link)[0]
  {
    if link[0].again {
      i := Foremost(link[1..]);
      i := i + 1;
    } else {
      i := 0;
    }
  }

  /** `from`, `from + 1`, ..., `upto - 1`. */
  function Range(from: nat, upto: nat): (r: seq<nat>)
    requires from <= upto
    ensures |r| == upto - from
  {
    seq(upto - from, i requires 0 <= i => from + i)
  }

  /** The lock needs the foremost first transmission, and the others follow it without a gap. */
  predicate Contiguous(p: Setup, s: System)
    requires Valid(p)
  {
    Accepted(s) <= Complete(ConfigOf(p), s.snd)
    && Firsts(s.link) == Range(Accepted(s), Complete(ConfigOf(p), s.snd))
  }

  lemma StepFirsts(p: Setup, s: Sender)
    requires Valid(p) && OtaWindow.Inv(ConfigOf(p), s)
    ensures var before, after := Complete(ConfigOf(p), s), Complete(ConfigOf(p), Go(ConfigOf(p), s));
            before <= after && Firsts(Emitted(p, s)) == Range(before, after)
  {
    hide OtaWindow.TraceOk, DataFrames, Groups, AtTop, Parts;
    GroupsUniform(p);
    if s.pc == Top {
      TopStays(ConfigOf(p), s);
    }
  }

  lemma TopStays(cfg: Config, s: Sender)
    requires s.pc == Top && forall i | 0 <= i < |cfg.groups| :: |cfg.groups[i]| > 0
    ensures Complete(cfg, AtTop(cfg, s)) == Complete(cfg, s)
  {}

  lemma StepContiguous(p: Setup, s: System)
    requires Valid(p) && SysInv(p, s) && Contiguous(p, s)
    ensures Contiguous(p, Act(p, s, Step))
  {
    hide OtaWindow.Inv, LinkOk, LockOk, AckOk, Complete, Firsts, Go, Emitted, DataFrames, Groups;
    StepFirsts(p, s.snd);
    FirstsConcat(s.link, Emitted(p, s.snd));
  }

  /** Without a loss, a repeat is never the block the lock needs: that one's first transmission comes first. */
  lemma RepeatRejected(p: Setup, s: System)
    requires Valid(p) && SysInv(p, s) && Contiguous(p, s) && s.link != [] && s.link[0].again
    ensures s.link[0].block < Accepted(s)
  {
    hide SenderOk, LockOk, AckOk, Complete, DataFrames, Groups, Repeats;
    HeadOk(p, s);
    if Accepted(s) < Complete(ConfigOf(p), s.snd) {
      var i := Foremost(s.link);
      assert PacketOk(p, s, s.link[i]) && Ordered(s.link[0], s.link[i]);
    }
  }

  lemma HeadNeeded(p: Setup, s: System)
    requires Valid(p) && Contiguous(p, s) && s.link != [] && !s.link[0].again
    ensures s.link[0].block == Accepted(s)
  {
    hide Complete, DataFrames, Groups;
    assert Firsts(s.link)[0] == s.link[0].block;
  }

  /** The head of the link has arrived: a first transmission was accepted, a repeat was not. */
  lemma HeadArrived(p: Setup, s: System, t: System)
    requires Valid(p) && Contiguous(p, s) && s.link != [] && t.snd == s.snd && t.link == s.link[1..]
    requires Accepted(t) == Accepted(s) + if s.link[0].again then 0 else 1
    ensures Contiguous(p, t)
  {
    hide Complete, DataFrames, Groups;
    if !s.link[0].again {
      assert Firsts(s.link)[1..] == Firsts(t.link);
    }
  }

  lemma DeliverContiguous(p: Setup, s: System)
    requires Valid(p) && Unambiguous(p) && SysInv(p, s) && Contiguous(p, s) && s.link != []
    ensures Contiguous(p, Act(p, s, Deliver))
  {
    hide SysInv, PacketOk, Contiguous, Unframe, Blocks, DataFrames, Unambiguous;
    HeadOk(p, s);
    LockBounds(p, s);
    OnlyTheRightBlock(p, s, s.link[0]);
    if s.link[0].again {
      RepeatRejected(p, s);
    } else {
      HeadNeeded(p, s);
    }
    HeadArrived(p, s, Act(p, s, Deliver));
  }

  lemma OtherContiguous(p: Setup, s: System, a: Action)
    requires Valid(p) && SysInv(p, s) && Contiguous(p, s) && Can(p, s, a)
    requires a.Elapse? || a.Say? || a.Hear? || a.Miss?
    ensures Contiguous(p, Act(p, s, a))
  {
    hide SysInv, SenderOk, Complete, Go, Emitted, Firsts, Groups, DataFrames, Drain, IsAck;
    var t := Act(p, s, a);
    if a.Hear? {
      HearFrame(p, s);
    }
    SenderOfSys(p, s);
    SenderStays(p, s.snd, t.snd);
  }

  lemma HearFrame(p: Setup, s: System)
    requires Valid(p) && s.back != []
    ensures var t := Drain(s.snd, s.back[0]);
            t == s.snd.(blockack := t.blockack, nak := t.nak, done := t.done)
            && t.blockack >= s.snd.blockack && (s.snd.done ==> t.done)
  {}

  lemma SenderOfSys(p: Setup, s: System)
    requires Valid(p) && SysInv(p, s)
    ensures SenderOk(p, s.snd)
  {}

  lemma ActContiguous(p: Setup, s: System, a: Action)
    requires Valid(p) && Unambiguous(p) && SysInv(p, s) && Contiguous(p, s) && Can(p, s, a) && !a.Lose? && !a.Damage?
    ensures Contiguous(p, Act(p, s, a))
  {
    hide SysInv, Contiguous, Unambiguous, Arrive;
    match a
    case Step => StepContiguous(p, s);
    case Deliver => DeliverContiguous(p, s);
    case _ => OtherContiguous(p, s, a);
  }

  // ---------------------------------------------------------------- the theorems

  /** No block is lost or damaged on the link; reports may be lost. */
  predicate NoLoss(actions: seq<Action>) {
    forall i | 0 <= i < |actions| :: !actions[i].Lose? && !actions[i].Damage?
  }

  lemma {:induction false} AlwaysContiguous(p: Setup, actions: seq<Action>)
    requires Valid(p) && Unambiguous(p) && CanAll(p, actions) && NoLoss(actions)
    ensures Contiguous(p, After(p, actions))
  {
    hide Act, Can, SysInv, Unambiguous, Contiguous;
    if actions == [] {
      BeginContiguous(p);
    } else {
      var front := actions[..|actions| - 1];
      AlwaysContiguous(p, front);
      AlwaysInv(p, front);
      ActContiguous(p, After(p, front), actions[|actions| - 1]);
    }
  }

  lemma BeginContiguous(p: Setup)
    requires Valid(p)
    ensures Contiguous(p, Begin(p))
  {
    hide Blocks, DataFrames, Groups;
  }

  /** Without a loss, once all blocks are sent and the link is empty, the lock has the whole blob, however the
      reports were delayed or lost and whatever was repeated. */
  lemma LosslessDelivers(p: Setup, actions: seq<Action>)
    requires Valid(p) && Unambiguous(p) && CanAll(p, actions) && NoLoss(actions)
    ensures var s := After(p, actions);
            && Accepted(s) <= Complete(ConfigOf(p), s.snd)
            && Firsts(s.link) == Range(Accepted(s), Complete(ConfigOf(p), s.snd))
            && (s.snd.gi == |Blocks(p.blob)| && s.link == [] ==>
                  Accepted(s) == |Blocks(p.blob)| && p.blob <= s.lock.image)
  {
    hide CanAll, After, Blocks, Unambiguous, Groups, DataFrames;
    AlwaysContiguous(p, actions);
    ImageIsPrefix(p, actions);
  }

  /** Some run brings the lock the whole image. */
  ghost predicate Deliverable(p: Setup)
    requires Valid(p)
  {
    exists actions :: CanAll(p, actions) && Accepted(After(p, actions)) == |Blocks(p.blob)|
  }

  lemma DeliveryRun(p: Setup)
    requires Valid(p) && (OtaWindow.Effective(ConfigOf(p)) >= 1 || p.resumeFrom == |Blocks(p.blob)|)
    ensures Deliverable(p)
  {
    hide CanAll, After, Blocks, DataFrames, Groups;
    BeginReached(p);
    BeginFlows(p);
    var t := Flow(p, Begin(p), Begin(p), p.resumeFrom);
    var before, after :| CanAll(p, before + after) && After(p, before + after) == t;
  }

  lemma BeginFlows(p: Setup)
    requires Valid(p)
    ensures Flowing(p, Begin(p), p.resumeFrom)
  {
    hide Blocks, DataFrames, Groups;
  }

  /** The transfer can bring the lock all that it lacks exactly when the window, counted from the shifted base,
      is ever open. */
  lemma DeliveryCondition(p: Setup)
    requires Valid(p) && Unambiguous(p)
    ensures Deliverable(p) <==> p.resumeFrom - p.shift < p.window || p.resumeFrom == |Blocks(p.blob)|
  {
    hide CanAll, After, Blocks, Unambiguous;
    if p.resumeFrom - p.shift < p.window || p.resumeFrom == |Blocks(p.blob)| {
      DeliveryRun(p);
    } else if Deliverable(p) {
      var actions :| CanAll(p, actions) && Accepted(After(p, actions)) == |Blocks(p.blob)|;
      AlwaysInv(p, actions);
      NothingSent(p, After(p, actions));
    }
  }

  lemma NothingSent(p: Setup, s: System)
    requires Valid(p) && SysInv(p, s) && OtaWindow.Effective(ConfigOf(p)) <= 0
    ensures Accepted(s) == p.resumeFrom
  {
    hide LinkOk, OtaWindow.Inv, DataFrames, Groups, Blocks;
  }
}
