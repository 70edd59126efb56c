/** Recoverability of the settlement protocol: once B's store holds the refund
    pre-signature, the last thing B asks for before it locks, each party is paid or can
    still be paid, and exactly which mid-write crashes break that. */
module Recoverability {
  import opened Common
  import opened Settlement
  import opened Atomicity

  const NoWindowCrash := Crashes(false, false, false)

  // ---------- what being paid means ----------

  predicate PaidA(c: Config, w: World) {
    RefundLanded(c, w) || (ClaimLanded(c, w) && SweptBy(w, A))
  }

  /** B has the XNO, or has every Monero output it ever locked back. */
  predicate PaidB(c: Config, w: World) {
    || ClaimLanded(c, w)
    || (RefundLanded(c, w) && forall k :: 0 <= k < |w.outputs| ==> w.outputs[k].spentBy == Some(B))
  }

  predicate AlongA(step: Step) { step.ByA? || step.Mature? }
  predicate AlongB(step: Step) { step.ByB? || step.Mature? }

  /** A gets paid by its own steps and the passing of Monero blocks, B doing nothing. */
  ghost predicate CanFinishA(c: Config, w: World) {
    exists steps: seq<Step> ::
      && (forall s <- steps :: AlongA(s))
      && Run(c, NoWindowCrash, w, steps).Some? && PaidA(c, Run(c, NoWindowCrash, w, steps).value)
  }

  ghost predicate CanFinishB(c: Config, w: World) {
    exists steps: seq<Step> ::
      && (forall s <- steps :: AlongB(s))
      && Run(c, NoWindowCrash, w, steps).Some? && PaidB(c, Run(c, NoWindowCrash, w, steps).value)
  }

  /** Both get paid, each acting alone: no co-signing round is needed any more. */
  ghost predicate CanFinishBoth(c: Config, w: World) {
    exists steps: seq<Step> ::
      && (forall s <- steps :: !s.Wire?)
      && Run(c, NoWindowCrash, w, steps).Some?
      && PaidA(c, Run(c, NoWindowCrash, w, steps).value) && PaidB(c, Run(c, NoWindowCrash, w, steps).value)
  }

  /** A can finish alone; B can finish alone once the joint account has a successor; and
      from any point both can be made whole without the wire. */
  ghost predicate Recoverable(c: Config, w: World) {
    && CanFinishA(c, w)
    && (w.account.Spent? ==> CanFinishB(c, w))
    && CanFinishBoth(c, w)
  }

  ghost predicate RecoverableUnder(p: Crashes) {
    forall c: Config, steps ::
      c.walletA != c.walletB && Run(c, p, Init, steps).Some? && Run(c, p, Init, steps).value.b.refund.Some?
      ==> Recoverable(c, Run(c, p, Init, steps).value)
  }

  // ---------- what closed crash windows keep ----------

  /** The claim pre-signature A wrote down or is about to. */
  function ClaimA(w: World): Option<PreSig> {
    if w.memA.ClaimSigned? then Some(w.memA.pre) else w.a.presigned
  }

  predicate Kept(c: Config, w: World) {
    // the refund B relies on is A's to take
    && (RefundB(w).Some? ==> RefundA(w).Some?)
    // the claim B can complete, or did, is the one A can extract from
    && (w.memB.ClaimSigned? ==> ClaimA(w) == Some(w.memB.pre))
    && (ClaimLanded(c, w) ==> ClaimA(w) == Some(w.account.sig.pre))
    && (w.a.x.Some? ==> w.a.x == Some(Share(B)))
    // B locks once, and knows it
    && (w.memB.LockSent? ==> |w.outputs| == 1)
    && (w.b.lock.Locked? ==> |w.outputs| == 1)
    && (!w.memB.LockSent? && !w.b.lock.Locked? ==> w.outputs == [])
  }

  lemma KeptByA(c: Config, w: World, step: StepA)
    requires c.walletA != c.walletB
    requires Inv(c, w) && Kept(c, w)
    requires EnabledA(c, w, step) && Allowed(NoWindowCrash, w, ByA(step))
    ensures Kept(c, ApplyA(c, w, step))
  {
  }

  lemma KeptByB(c: Config, w: World, step: StepB)
    requires c.walletA != c.walletB
    requires Inv(c, w) && Kept(c, w)
    requires EnabledB(c, w, step) && Allowed(NoWindowCrash, w, ByB(step))
    ensures Kept(c, ApplyB(c, w, step))
  {
  }

  lemma {:induction false} KeptRun(c: Config, w: World, steps: seq<Step>)
    requires c.walletA != c.walletB
    requires Inv(c, w) && Kept(c, w)
    requires Run(c, NoWindowCrash, w, steps).Some?
    ensures Inv(c, Run(c, NoWindowCrash, w, steps).value)
    ensures Kept(c, Run(c, NoWindowCrash, w, steps).value)
    decreases steps
  {
    if steps != [] {
      InvStep(c, w, steps[0]);
      match steps[0] {
        case ByA(s) => KeptByA(c, w, s);
        case ByB(s) => KeptByB(c, w, s);
        case Wire(_) =>
        case Mature(_) =>
      }
      KeptRun(c, Apply(c, w, steps[0]), steps[1..]);
    }
  }

  // ---------- the finishing schedules ----------

  lemma FirstA(c: Config, w: World, step: Step)
    requires AlongA(step) && Enabled(c, w, step) && Allowed(NoWindowCrash, w, step)
    requires CanFinishA(c, Apply(c, w, step))
    ensures CanFinishA(c, w)
  {
    var v := Apply(c, w, step);
    var rest :| (forall s <- rest :: AlongA(s))
      && Run(c, NoWindowCrash, v, rest).Some? && PaidA(c, Run(c, NoWindowCrash, v, rest).value);
    var steps := [step] + rest;
    assert steps[1..] == rest;
    assert Run(c, NoWindowCrash, w, steps).Some? && PaidA(c, Run(c, NoWindowCrash, w, steps).value);
  }

  lemma FirstB(c: Config, w: World, step: Step)
    requires AlongB(step) && Enabled(c, w, step) && Allowed(NoWindowCrash, w, step)
    requires CanFinishB(c, Apply(c, w, step))
    ensures CanFinishB(c, w)
  {
    var v := Apply(c, w, step);
    var rest :| (forall s <- rest :: AlongB(s))
      && Run(c, NoWindowCrash, v, rest).Some? && PaidB(c, Run(c, NoWindowCrash, v, rest).value);
    var steps := [step] + rest;
    assert steps[1..] == rest;
    assert Run(c, NoWindowCrash, w, steps).Some? && PaidB(c, Run(c, NoWindowCrash, w, steps).value);
  }

  lemma DoneA(c: Config, w: World)
    requires PaidA(c, w)
    ensures CanFinishA(c, w)
  {
    var none: seq<Step> := [];
    assert Run(c, NoWindowCrash, w, none) == Some(w);
  }

  lemma DoneB(c: Config, w: World)
    requires PaidB(c, w)
    ensures CanFinishB(c, w)
  {
    var none: seq<Step> := [];
    assert Run(c, NoWindowCrash, w, none) == Some(w);
  }

  lemma OnlyPartiesSpend(w: World, k: nat)
    requires k < |w.outputs| && w.outputs[k].spentBy.Some?
    ensures (SweptBy(w, A) && w.outputs[k].spentBy == Some(A)) || (SweptBy(w, B) && w.outputs[k].spentBy == Some(B))
  {
    var p := w.outputs[k].spentBy.value;
    assert SweptBy(w, p);
    match p { case A => case B => }
  }

  /** With x in its store, A sweeps the one lock. */
  lemma SweepFinishes(c: Config, w: World)
    requires Inv(c, w) && Kept(c, w) && w.memA == Idle && w.a.x.Some? && !PaidA(c, w)
    ensures CanFinishA(c, w)
  {
    var k := w.a.lockseen.value;
    assert w.outputs[k].spentBy == None by {
      if w.outputs[k].spentBy.Some? { OnlyPartiesSpend(w, k); }
    }
    var v := Apply(c, w, ByA(ASweep(k)));
    SpendsStep(c, w, ByA(ASweep(k)), A);
    DoneA(c, v);
    FirstA(c, w, ByA(ASweep(k)));
  }

  lemma IdleAFinishes(c: Config, w: World)
    requires c.walletA != c.walletB
    requires Inv(c, w) && Kept(c, w) && w.a.refund.Some? && w.memA == Idle
    ensures CanFinishA(c, w)
  {
    if PaidA(c, w) {
      DoneA(c, w);
    } else if !w.account.Spent? {
      DoneA(c, Apply(c, w, ByA(ARefund(Manual))));
      FirstA(c, w, ByA(ARefund(Manual)));
    } else if w.a.x.Some? {
      SweepFinishes(c, w);
    } else {
      InvStep(c, w, ByA(AExtract));
      KeptByA(c, w, AExtract);
      SweepFinishes(c, Apply(c, w, ByA(AExtract)));
      FirstA(c, w, ByA(AExtract));
    }
  }

  lemma AFinishes(c: Config, w: World)
    requires c.walletA != c.walletB
    requires Inv(c, w) && Kept(c, w) && RefundA(w).Some?
    ensures CanFinishA(c, w)
  {
    if w.memA == Idle {
      IdleAFinishes(c, w);
    } else {
      // what A holds it writes down first; these are the only things it can hold by now
      var step :=
        if w.memA.RefundSigned? then ARefundPreStore
        else if w.memA.ClaimSigned? then AClaimPreStore
        else if w.memA.RefundSent? then ARefundStore
        else ASweepStore;
      InvStep(c, w, ByA(step));
      KeptByA(c, w, step);
      IdleAFinishes(c, Apply(c, w, ByA(step)));
      FirstA(c, w, ByA(step));
    }
  }

  lemma IdleBFinishes(c: Config, w: World)
    requires c.walletA != c.walletB
    requires Inv(c, w) && Kept(c, w) && w.b.refund.Some? && w.account.Spent? && w.memB == Idle
    ensures CanFinishB(c, w)
  {
    if PaidB(c, w) {
      DoneB(c, w);
    } else {
      var v := Apply(c, w, Mature(0));
      assert w.outputs[0].spentBy == None by {
        if w.outputs[0].spentBy.Some? { OnlyPartiesSpend(w, 0); }
      }
      DoneB(c, Apply(c, v, ByB(BRecover(0))));
      FirstB(c, v, ByB(BRecover(0)));
      FirstB(c, w, Mature(0));
    }
  }

  lemma BFinishes(c: Config, w: World)
    requires c.walletA != c.walletB
    requires Inv(c, w) && Kept(c, w) && w.b.refund.Some? && w.account.Spent?
    ensures CanFinishB(c, w)
  {
    if w.memB == Idle {
      IdleBFinishes(c, w);
    } else {
      // a lock is written down; a claim the chain has overtaken is given up
      var step := if w.memB.LockSent? then BLockStore else BStop;
      InvStep(c, w, ByB(step));
      KeptByB(c, w, step);
      IdleBFinishes(c, Apply(c, w, ByB(step)));
      FirstB(c, w, ByB(step));
    }
  }

  lemma {:induction false} PaidAStays(c: Config, w: World, steps: seq<Step>)
    requires c.walletA != c.walletB
    requires PaidA(c, w) && Run(c, NoWindowCrash, w, steps).Some?
    ensures PaidA(c, Run(c, NoWindowCrash, w, steps).value)
    decreases steps
  {
    if steps != [] {
      SpendsStep(c, w, steps[0], A);
      PaidAStays(c, Apply(c, w, steps[0]), steps[1..]);
    }
  }

  lemma {:induction false} RefundStays(c: Config, w: World, steps: seq<Step>)
    requires Inv(c, w) && c.walletA != c.walletB
    requires w.b.refund.Some? && Run(c, NoWindowCrash, w, steps).Some?
    ensures Run(c, NoWindowCrash, w, steps).value.b.refund.Some?
    decreases steps
  {
    if steps != [] {
      InvStep(c, w, steps[0]);
      RefundStays(c, Apply(c, w, steps[0]), steps[1..]);
    }
  }

  /** A goes first, B after it: A's payment is final. */
  lemma BothFinish(c: Config, w: World)
    requires c.walletA != c.walletB
    requires Inv(c, w) && Kept(c, w) && w.b.refund.Some?
    ensures CanFinishBoth(c, w)
  {
    AFinishes(c, w);
    var sa :| (forall s <- sa :: AlongA(s))
      && Run(c, NoWindowCrash, w, sa).Some? && PaidA(c, Run(c, NoWindowCrash, w, sa).value);
    var v := Run(c, NoWindowCrash, w, sa).value;
    KeptRun(c, w, sa);
    RefundStays(c, w, sa);
    BFinishes(c, v);
    var sb :| (forall s <- sb :: AlongB(s))
      && Run(c, NoWindowCrash, v, sb).Some? && PaidB(c, Run(c, NoWindowCrash, v, sb).value);
    PaidAStays(c, v, sb);
    RunConcat(c, NoWindowCrash, w, sa, sb);
    var steps := sa + sb;
    assert forall s: Step <- steps :: !s.Wire?;
    assert Run(c, NoWindowCrash, w, steps) == Run(c, NoWindowCrash, v, sb);
  }

  /** RECOVERABILITY.  With crashes only between persisted steps, from the moment B's store
      holds the refund pre-signature no reachable state leaves a party stranded. */
  lemma AlwaysRecoverable(c: Config, steps: seq<Step>)
    requires c.walletA != c.walletB
    requires Run(c, NoWindowCrash, Init, steps).Some?
    requires Run(c, NoWindowCrash, Init, steps).value.b.refund.Some?
    ensures Recoverable(c, Run(c, NoWindowCrash, Init, steps).value)
  {
    KeptRun(c, Init, steps);
    var w := Run(c, NoWindowCrash, Init, steps).value;
    AFinishes(c, w);
    if w.account.Spent? {
      BFinishes(c, w);
    }
    BothFinish(c, w);
  }

  // ---------- the three crash windows that do strand a party ----------

  const Wallets := Config(1, 2)

  /** The chain's claim was completed in a round A has no record of, nor ever will. */
  predicate ClaimForgotten(w: World) {
    && w.account.Spent? && w.account.sig.pre.point == B
    && w.account.sig.pre.round < w.rounds
    && w.a.presigned != Some(w.account.sig.pre) && w.memA != ClaimSigned(w.account.sig.pre)
    && w.a.x != Some(Share(B))
  }

  /** B relies on a refund A has no record of, nor ever will: the account stands still. */
  predicate RefundForgotten(w: World) {
    && w.b.refund.Some? && w.account.Opened? && !w.memB.ClaimSigned?
    && w.a.refund == None && !w.memA.RefundSigned?
  }

  /** B's store says nothing was locked, and a lock is there. */
  predicate LockForgotten(w: World) {
    w.b.lock == Skipped && w.outputs != []
  }

  lemma {:induction false} ClaimStaysForgotten(c: Config, p: Crashes, w: World, steps: seq<Step>)
    requires c.walletA != c.walletB && Inv(c, w) && ClaimForgotten(w) && !SweptBy(w, A)
    requires Run(c, p, w, steps).Some?
    ensures !PaidA(c, Run(c, p, w, steps).value)
    decreases steps
  {
    if steps != [] {
      InvStep(c, w, steps[0]);
      SpendsStep(c, w, steps[0], A);
      ClaimStaysForgotten(c, p, Apply(c, w, steps[0]), steps[1..]);
    }
  }

  lemma {:induction false} RefundStaysForgotten(c: Config, p: Crashes, w: World, steps: seq<Step>)
    requires c.walletA != c.walletB && Inv(c, w) && RefundForgotten(w)
    requires Run(c, p, w, steps).Some?
    ensures RefundForgotten(Run(c, p, w, steps).value)
    ensures !PaidA(c, Run(c, p, w, steps).value) && !PaidB(c, Run(c, p, w, steps).value)
    decreases steps
  {
    if steps != [] {
      InvStep(c, w, steps[0]);
      RefundStaysForgotten(c, p, Apply(c, w, steps[0]), steps[1..]);
    }
  }

  lemma {:induction false} LockStaysForgotten(c: Config, p: Crashes, w: World, steps: seq<Step>)
    requires c.walletA != c.walletB && Inv(c, w) && RefundLanded(c, w) && LockForgotten(w) && !SweptBy(w, B)
    requires Run(c, p, w, steps).Some?
    ensures !PaidB(c, Run(c, p, w, steps).value)
    decreases steps
  {
    if steps != [] {
      InvStep(c, w, steps[0]);
      SpendsStep(c, w, steps[0], B);
      LockStaysForgotten(c, p, Apply(c, w, steps[0]), steps[1..]);
    } else if w.outputs[0].spentBy.Some? {
      OnlyPartiesSpend(w, 0);
    }
  }

  lemma Extend(p: Crashes, steps: seq<Step>, w: World, step: Step) returns (longer: seq<Step>, v: World)
    requires Run(Wallets, p, Init, steps) == Some(w)
    requires Enabled(Wallets, w, step) && Allowed(p, w, step)
    ensures longer == steps + [step] && v == Apply(Wallets, w, step)
    ensures Run(Wallets, p, Init, longer) == Some(v)
  {
    longer, v := steps + [step], Apply(Wallets, w, step);
    RunConcat(Wallets, p, Init, steps, [step]);
    assert [step][1..] == [];
  }

  lemma RunToOpen(p: Crashes) returns (steps: seq<Step>, w: World)
    ensures Run(Wallets, p, Init, steps) == Some(w)
    ensures w == World(StoreA(true, Some(0), None, None, None, None, false, false),
                       StoreB(Some(0), None, NoLock, false, false, false),
                       Idle, Idle, Opened(0), 1, [], 1)
  {
    steps, w := [], Init;
    steps, w := Extend(p, steps, w, ByA(AFund));
    steps, w := Extend(p, steps, w, ByA(AFundStore));
    steps, w := Extend(p, steps, w, Wire(RoundOpen(0)));
    steps, w := Extend(p, steps, w, ByA(AOpenBroadcast));
    steps, w := Extend(p, steps, w, ByA(AOpenStore));
    steps, w := Extend(p, steps, w, ByB(BOpenStore));
  }

  /** A funds, both co-sign the open and then the refund, and B broadcasts its lock. */
  lemma RunToLock(p: Crashes) returns (steps: seq<Step>, w: World)
    ensures Run(Wallets, p, Init, steps) == Some(w)
    ensures var refund := PreSig(SendBlock(0, 1), A, 1);
            w == World(StoreA(true, Some(0), Some(refund), None, None, None, false, false),
                       StoreB(Some(0), Some(refund), NoLock, false, false, false),
                       Idle, LockSent(0), Opened(0), 1, [Output(false, None)], 2)
  {
    steps, w := RunToOpen(p);
    steps, w := Extend(p, steps, w, Wire(RoundRefund));
    steps, w := Extend(p, steps, w, ByA(ARefundPreStore));
    steps, w := Extend(p, steps, w, ByB(BRefundPreStore));
    steps, w := Extend(p, steps, w, ByB(BLock));
  }

  /** A stops between the finished claim round and its store write, and B's claim lands: B
      holds the XNO, and A can never reach the Monero. */
  lemma ClaimWindowStrandsA(p: Crashes) returns (steps: seq<Step>, w: World)
    requires p.claimWindow
    ensures Run(Wallets, p, Init, steps) == Some(w) && w.b.refund.Some?
    ensures !CanFinishA(Wallets, w)
  {
    steps, w := RunToLock(p);
    steps, w := Extend(p, steps, w, ByB(BLockStore));
    steps, w := Extend(p, steps, w, Mature(0));
    steps, w := Extend(p, steps, w, ByA(ALockSeen(0)));
    steps, w := Extend(p, steps, w, Wire(RoundClaim));
    steps, w := Extend(p, steps, w, ByB(BClaimBroadcast));
    steps, w := Extend(p, steps, w, ByA(AStop));
    InvRun(Wallets, p, Init, steps);
    forall more | Run(Wallets, NoWindowCrash, w, more).Some?
      ensures !PaidA(Wallets, Run(Wallets, NoWindowCrash, w, more).value)
    {
      ClaimStaysForgotten(Wallets, NoWindowCrash, w, more);
    }
  }

  /** A stops between the finished refund round and its store write, B having written its own:
      B locks, nobody is ever at the refund round again, and neither leg ever moves. */
  lemma RefundWindowStrandsBoth(p: Crashes) returns (steps: seq<Step>, w: World)
    requires p.refundWindow
    ensures Run(Wallets, p, Init, steps) == Some(w) && w.b.refund.Some? && w.b.lock.Locked?
    ensures !CanFinishA(Wallets, w) && !CanFinishB(Wallets, w) && !CanFinishBoth(Wallets, w)
  {
    steps, w := RunToOpen(p);
    steps, w := Extend(p, steps, w, Wire(RoundRefund));
    steps, w := Extend(p, steps, w, ByB(BRefundPreStore));
    steps, w := Extend(p, steps, w, ByA(AStop));
    steps, w := Extend(p, steps, w, ByB(BLock));
    steps, w := Extend(p, steps, w, ByB(BLockStore));
    InvRun(Wallets, p, Init, steps);
    forall more | Run(Wallets, NoWindowCrash, w, more).Some?
      ensures !PaidA(Wallets, Run(Wallets, NoWindowCrash, w, more).value)
      ensures !PaidB(Wallets, Run(Wallets, NoWindowCrash, w, more).value)
    {
      RefundStaysForgotten(Wallets, NoWindowCrash, w, more);
    }
  }

  /** After the lock: B stops before recording it, A refunds having seen no lock, and B's
      restart finds the account moved and records that it never locked. */
  lemma RunToSkip(p: Crashes) returns (steps: seq<Step>, w: World)
    requires p.lockWindow
    ensures Run(Wallets, p, Init, steps) == Some(w)
    ensures w.b.refund.Some? && w.b.lock == Skipped && w.outputs == [Output(false, None)] && RefundLanded(Wallets, w)
  {
    steps, w := RunToLock(p);
    steps, w := Extend(p, steps, w, ByB(BStop));
    steps, w := Extend(p, steps, w, ByA(ARefund(LockNeverSeen)));
    steps, w := Extend(p, steps, w, ByA(ARefundStore));
    steps, w := Extend(p, steps, w, ByB(BSkipLock));
  }

  /** B stops between broadcasting the lock and recording it, A refunds, and B never looks for
      its Monero again. */
  lemma LockWindowStrandsB(p: Crashes) returns (steps: seq<Step>, w: World)
    requires p.lockWindow
    ensures Run(Wallets, p, Init, steps) == Some(w) && w.b.refund.Some? && w.account.Spent?
    ensures !CanFinishB(Wallets, w)
  {
    steps, w := RunToSkip(p);
    InvRun(Wallets, p, Init, steps);
    forall more | Run(Wallets, NoWindowCrash, w, more).Some?
      ensures !PaidB(Wallets, Run(Wallets, NoWindowCrash, w, more).value)
    {
      LockStaysForgotten(Wallets, NoWindowCrash, w, more);
    }
  }

  /** Recoverability holds exactly when none of the three windows can be hit. */
  lemma RecoverableExactly(p: Crashes)
    ensures RecoverableUnder(p) <==> !p.claimWindow && !p.refundWindow && !p.lockWindow
  {
    if p == NoWindowCrash {
      forall c: Config, steps |
        c.walletA != c.walletB && Run(c, p, Init, steps).Some? && Run(c, p, Init, steps).value.b.refund.Some?
        ensures Recoverable(c, Run(c, p, Init, steps).value)
      {
        AlwaysRecoverable(c, steps);
      }
    } else if p.claimWindow {
      var steps, w := ClaimWindowStrandsA(p);
    } else if p.refundWindow {
      var steps, w := RefundWindowStrandsBoth(p);
    } else {
      var steps, w := LockWindowStrandsB(p);
    }
  }
}
