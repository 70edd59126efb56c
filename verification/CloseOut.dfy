/** What B's `recovered` marker is worth.  After a refund B hunts for its lock ten blocks deep,
    for ten minutes (`recoverXmrFromRefund`, web/two_party.js); finding none it closes the
    session out as recovered, and the callers never come back to it. */
module CloseOut {
  import opened Common
  import opened Settlement
  import opened Atomicity
  import opened Recoverability

  /** A lock is there, ten blocks deep, for a hunt to find. */
  predicate HasTakeable(w: World) {
    exists k :: 0 <= k < |w.outputs| && w.outputs[k].mature && w.outputs[k].spentBy == None
  }

  predicate AllBuried(w: World) {
    forall k :: 0 <= k < |w.outputs| ==> w.outputs[k].mature
  }

  /** B is told the truth: marked recovered, all it ever locked is its own again. */
  predicate ToldTruly(c: Config, w: World) {
    w.b.recovered ==> PaidB(c, w)
  }

  /** What hunts can be relied on for.  `buried`: every output is ten deep by the time of the
      hunt.  `sees`: a hunt sees an output that deep.  `LockWait.Hunt` says exactly when it does:
      when the block of the lock is in the window of some pass, counted from the recorded height
      or 5000 blocks back, and its chunk is not skipped in that pass. */
  datatype Sight = Sight(buried: bool, sees: bool)

  /** A hunt that finds nothing here. */
  predicate HuntFails(w: World, sight: Sight) {
    (sight.sees ==> !HasTakeable(w)) && (sight.buried ==> AllBuried(w))
  }

  /** B closes out only over a hunt that found nothing. */
  predicate Hunts(c: Config, w: World, steps: seq<Step>, sight: Sight)
    decreases steps
  {
    steps == [] ||
    ((steps[0] == ByB(BCloseOut) ==> HuntFails(w, sight))
     && (Enabled(c, w, steps[0]) ==> Hunts(c, Apply(c, w, steps[0]), steps[1..], sight)))
  }

  ghost predicate AlwaysToldTruly(sight: Sight) {
    forall c: Config, steps ::
      c.walletA != c.walletB && Run(c, NoWindowCrash, Init, steps).Some? && Hunts(c, Init, steps, sight)
      ==> ToldTruly(c, Run(c, NoWindowCrash, Init, steps).value)
  }

  const GoodSight := Sight(true, true)

  /** Everything B locked is B's again, and nothing will be locked any more. */
  predicate Settled(c: Config, w: World) {
    w.b.recovered ==>
      RefundLanded(c, w) && w.b.lock != NoLock && forall k :: 0 <= k < |w.outputs| ==> w.outputs[k].spentBy == Some(B)
  }

  /** With no window crash, one output at most was ever locked, so a sweep by B took it all. */
  lemma SweptIsAll(c: Config, w: World)
    requires Inv(c, w) && Kept(c, w) && SweptBy(w, B)
    ensures forall k :: 0 <= k < |w.outputs| ==> w.outputs[k].spentBy == Some(B)
  {
  }

  lemma SpentIsMine(c: Config, w: World)
    requires c.walletA != c.walletB && Inv(c, w) && RefundLanded(c, w) && !HasTakeable(w) && AllBuried(w)
    ensures forall k :: 0 <= k < |w.outputs| ==> w.outputs[k].spentBy == Some(B)
  {
    forall k | 0 <= k < |w.outputs| ensures w.outputs[k].spentBy == Some(B) {
      assert w.outputs[k].spentBy.Some?;
      OnlyPartiesSpend(w, k);
    }
  }

  lemma SettledByB(c: Config, w: World, step: StepB)
    requires c.walletA != c.walletB && Inv(c, w) && Kept(c, w) && Settled(c, w)
    requires EnabledB(c, w, step) && (step == BCloseOut ==> HuntFails(w, GoodSight))
    ensures Settled(c, ApplyB(c, w, step))
  {
    if step == BCloseOut {
      SpentIsMine(c, w);
    } else if step == BRecoverStore {
      SweptIsAll(c, w);
    }
  }

  lemma SettledStep(c: Config, w: World, step: Step)
    requires c.walletA != c.walletB && Inv(c, w) && Kept(c, w) && Settled(c, w)
    requires Enabled(c, w, step) && (step == ByB(BCloseOut) ==> HuntFails(w, GoodSight))
    ensures Settled(c, Apply(c, w, step))
  {
    if step.ByB? {
      SettledByB(c, w, step.sb);
    }
  }

  lemma {:induction false} SettledRun(c: Config, w: World, steps: seq<Step>)
    requires c.walletA != c.walletB && Inv(c, w) && Kept(c, w) && Settled(c, w)
    requires Run(c, NoWindowCrash, w, steps).Some? && Hunts(c, w, steps, GoodSight)
    ensures Settled(c, Run(c, NoWindowCrash, w, steps).value)
    decreases steps
  {
    if steps != [] {
      SettledStep(c, w, steps[0]);
      KeptRun(c, w, [steps[0]]);
      assert [steps[0]][1..] == [];
      SettledRun(c, Apply(c, w, steps[0]), steps[1..]);
    }
  }

  lemma {:induction false} HuntsMore(c: Config, sight: Sight, w: World, steps: seq<Step>, step: Step)
    requires Run(c, NoWindowCrash, w, steps).Some? && Hunts(c, w, steps, sight)
    requires step == ByB(BCloseOut) ==> HuntFails(Run(c, NoWindowCrash, w, steps).value, sight)
    ensures Hunts(c, w, steps + [step], sight)
    decreases steps
  {
    if steps == [] {
      assert steps + [step] == [step] && [step][1..] == [];
    } else {
      assert (steps + [step])[1..] == steps[1..] + [step];
      HuntsMore(c, sight, Apply(c, w, steps[0]), steps[1..], step);
    }
  }

  lemma {:induction false} NoCloseOutHunts(c: Config, sight: Sight, w: World, steps: seq<Step>)
    requires forall i :: 0 <= i < |steps| ==> steps[i] != ByB(BCloseOut)
    ensures Hunts(c, w, steps, sight)
    decreases steps
  {
    if steps != [] && Enabled(c, w, steps[0]) {
      NoCloseOutHunts(c, sight, Apply(c, w, steps[0]), steps[1..]);
    }
  }

  /** A run's closing out is in B's marker. */
  lemma {:induction false} UnmarkedNeverClosed(c: Config, w: World, steps: seq<Step>)
    requires Run(c, NoWindowCrash, w, steps).Some? && !Run(c, NoWindowCrash, w, steps).value.b.recovered
    ensures !w.b.recovered && forall i :: 0 <= i < |steps| ==> steps[i] != ByB(BCloseOut)
    decreases steps
  {
    if steps != [] {
      UnmarkedNeverClosed(c, Apply(c, w, steps[0]), steps[1..]);
      forall i | 0 <= i < |steps| ensures steps[i] != ByB(BCloseOut) {
        assert i > 0 ==> steps[i] == steps[1..][i - 1];
      }
    }
  }

  /** The lock is on record, the refund has landed, and B has not closed out yet. */
  lemma RunToHunt(sight: Sight, mature: bool) returns (steps: seq<Step>, w: World)
    ensures Run(Wallets, NoWindowCrash, Init, steps) == Some(w) && Hunts(Wallets, Init, steps, sight)
    ensures !w.b.recovered && RefundLanded(Wallets, w) && w.b.lock.Locked? && w.outputs == [Output(mature, None)]
    ensures Enabled(Wallets, w, ByB(BCloseOut))
  {
    var p := NoWindowCrash;
    steps, w := RunToLock(p);
    steps, w := Extend(p, steps, w, ByB(BLockStore));
    if mature {
      steps, w := Extend(p, steps, w, Mature(0));
    }
    steps, w := Extend(p, steps, w, ByA(ARefund(LockNeverSeen)));
    steps, w := Extend(p, steps, w, ByA(ARefundStore));
    UnmarkedNeverClosed(Wallets, Init, steps);
    NoCloseOutHunts(Wallets, sight, Init, steps);
  }

  /** A failing input: a lock broadcast, A's refund before it is buried, and a hunt that ends
      with the one output unspent and too shallow. */
  lemma RunToShallowCloseOut(sees: bool) returns (steps: seq<Step>, w: World)
    ensures Run(Wallets, NoWindowCrash, Init, steps) == Some(w) && Hunts(Wallets, Init, steps, Sight(false, sees))
    ensures w.b.recovered && RefundLanded(Wallets, w) && w.b.lock.Locked? && w.outputs == [Output(false, None)]
  {
    var sight := Sight(false, sees);
    steps, w := RunToHunt(sight, false);
    HuntsMore(Wallets, sight, Init, steps, ByB(BCloseOut));
    steps, w := Extend(NoWindowCrash, steps, w, ByB(BCloseOut));
  }

  /** Another: the lock is buried, but every pass of the hunt skipped its chunk, or its height was
      never recorded and it is older than the lookback. */
  lemma RunToBlindCloseOut(buried: bool) returns (steps: seq<Step>, w: World)
    ensures Run(Wallets, NoWindowCrash, Init, steps) == Some(w) && Hunts(Wallets, Init, steps, Sight(buried, false))
    ensures w.b.recovered && RefundLanded(Wallets, w) && w.b.lock.Locked? && w.outputs == [Output(true, None)]
  {
    var sight := Sight(buried, false);
    steps, w := RunToHunt(sight, true);
    HuntsMore(Wallets, sight, Init, steps, ByB(BCloseOut));
    steps, w := Extend(NoWindowCrash, steps, w, ByB(BCloseOut));
  }

  /** TOLD THE TRUTH, EXACTLY.  B's `recovered` always means it has everything back if and only
      if whatever it locked is buried by the time of the hunt and the hunt sees it. */
  lemma ToldTrulyExactly(sight: Sight)
    ensures AlwaysToldTruly(sight) <==> sight.buried && sight.sees
  {
    if sight == GoodSight {
      forall c: Config, steps |
        c.walletA != c.walletB && Run(c, NoWindowCrash, Init, steps).Some? && Hunts(c, Init, steps, sight)
        ensures ToldTruly(c, Run(c, NoWindowCrash, Init, steps).value)
      {
        SettledRun(c, Init, steps);
      }
    } else {
      var steps, w;
      if sight.buried {
        steps, w := RunToBlindCloseOut(sight.buried);
      } else {
        steps, w := RunToShallowCloseOut(sight.sees);
      }
      assert w.outputs[0].spentBy != Some(B);
      assert !PaidB(Wallets, w);
    }
  }
}
