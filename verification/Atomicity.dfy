/** Atomicity of the settlement protocol over every run: any interleaving, any number of
    stops and restarts of either driver, at any point including between an external effect
    and the store write that records it. */
module Atomicity {
  import opened Common
  import opened Settlement

  /** The refund pre-signature a party can still write down or already has. */
  function RefundA(w: World): Option<PreSig> {
    if w.memA.RefundSigned? then Some(w.memA.pre) else w.a.refund
  }

  function RefundB(w: World): Option<PreSig> {
    if w.memB.RefundSigned? then Some(w.memB.pre) else w.b.refund
  }

  predicate IsRefund(c: Config, pre: PreSig) {
    pre.block.dest == c.walletA && pre.point == A
  }

  predicate IsClaim(c: Config, pre: PreSig) {
    pre.block.dest == c.walletB && pre.point == B
  }

  /** The open block A recorded is the one on chain, or the parent of what is on chain. */
  predicate OpenOnChain(w: World, open: nat) {
    match w.account
    case Unopened => false
    case Opened(o) => o == open
    case Spent(sig) => sig.pre.block.previous == open
  }

  predicate MemoryA(c: Config, w: World) {
    match w.memA
    case Idle => true
    case FundSent => !w.a.fund
    case OpenSigned(_) => w.a.fund && w.a.open == None
    case OpenSent(o) => w.a.fund && w.a.open == None && OpenOnChain(w, o)
    case RefundSigned(pre) =>
      w.a.refund == None && w.a.open.Some? && IsRefund(c, pre) && pre.block.previous == w.a.open.value
    case RefundSent => RefundLanded(c, w) && w.a.refund.Some?
    case ClaimSigned(pre) =>
      && w.a.presigned == None && w.a.lockseen.Some? && IsClaim(c, pre)
      && w.a.open == Some(pre.block.previous)
    case SweepSent => SweptBy(w, A) && w.a.x.Some?
    case _ => false
  }

  predicate MemoryB(c: Config, w: World) {
    match w.memB
    case Idle => true
    case OpenSigned(_) => w.b.open == None && w.b.lock == NoLock
    case RefundSigned(pre) =>
      w.b.refund == None && IsRefund(c, pre) && w.b.open == Some(pre.block.previous)
    case LockSent(k) => w.b.refund.Some? && w.b.lock == NoLock && k < |w.outputs|
    case ClaimSigned(pre) =>
      && w.a.lockseen.Some? && IsClaim(c, pre) && w.b.lock != NoLock && w.b.refund.Some?
      && w.a.open == Some(pre.block.previous)
    case ClaimSent => ClaimLanded(c, w) && w.b.lock != NoLock && w.b.refund.Some?
    case SweepSent => SweptBy(w, B) && w.b.lock.Locked?
    case _ => false
  }

  predicate StoresA(c: Config, w: World) {
    && (w.a.open.Some? ==> w.a.fund && OpenOnChain(w, w.a.open.value))
    && (w.a.refund.Some? ==>
        w.a.open.Some? && IsRefund(c, w.a.refund.value) && w.a.refund.value.block.previous == w.a.open.value)
    && (w.a.lockseen.Some? ==>
        w.a.refund.Some? && w.a.lockseen.value < |w.outputs| && w.outputs[w.a.lockseen.value].mature)
    && (w.a.presigned.Some? ==>
        w.a.lockseen.Some? && IsClaim(c, w.a.presigned.value) && w.a.presigned.value.block.previous == w.a.open.value)
    && (w.a.x.Some? ==>
        w.a.presigned.Some? && ClaimLanded(c, w) && w.a.x == Some(Extract(w.a.presigned.value, w.account.sig)))
    && (w.a.sweep ==> SweptBy(w, A))
    && (w.a.refunded ==> RefundLanded(c, w))
  }

  predicate StoresB(c: Config, w: World) {
    && (w.b.refund.Some? ==> IsRefund(c, w.b.refund.value) && w.b.open == Some(w.b.refund.value.block.previous))
    && (w.b.lock != NoLock ==> w.b.refund.Some? && w.b.open.Some?)
    && (w.b.lock.Locked? ==> w.b.lock.output < |w.outputs|)
    && (w.b.claim ==> ClaimLanded(c, w))
    && (RefundA(w).Some? && RefundB(w).Some? ==> RefundA(w) == RefundB(w))
  }

  predicate Chains(c: Config, w: World) {
    && (w.account.Spent? ==>
        && SigValid(w.account.sig)
        && (IsRefund(c, w.account.sig.pre)
            || (IsClaim(c, w.account.sig.pre) && w.a.lockseen.Some? && w.b.lock != NoLock))
        && (IsRefund(c, w.account.sig.pre) ==> w.a.refund == Some(w.account.sig.pre)))
    && (SweptBy(w, A) ==> ClaimLanded(c, w))
    && (SweptBy(w, B) ==> RefundLanded(c, w))
  }

  /** Only what is buried can be spent. */
  predicate SpentIsBuried(w: World) {
    forall k :: 0 <= k < |w.outputs| && w.outputs[k].spentBy.Some? ==> w.outputs[k].mature
  }

  predicate Inv(c: Config, w: World) {
    MemoryA(c, w) && MemoryB(c, w) && StoresA(c, w) && StoresB(c, w) && Chains(c, w) && SpentIsBuried(w)
  }

  /** Monero spends are final, and only the two sweeping steps add one. */
  lemma SpendsStep(c: Config, w: World, step: Step, p: Party)
    requires Enabled(c, w, step)
    ensures var v := Apply(c, w, step);
            var adds := if p == A then step.ByA? && step.sa.ASweep? else step.ByB? && step.sb.BRecover?;
            SweptBy(v, p) <==> SweptBy(w, p) || adds
  {
    var v := Apply(c, w, step);
    if SweptBy(w, p) {
      var k :| 0 <= k < |w.outputs| && w.outputs[k].spentBy == Some(p);
      assert v.outputs[k].spentBy == Some(p);
    }
    if SweptBy(v, p) {
      var k :| 0 <= k < |v.outputs| && v.outputs[k].spentBy == Some(p);
      assert k < |w.outputs|;
    }
    if step.ByA? && step.sa.ASweep? { assert v.outputs[step.sa.output].spentBy == Some(A); }
    if step.ByB? && step.sb.BRecover? { assert v.outputs[step.sb.output].spentBy == Some(B); }
  }

  lemma SideAUnderA(c: Config, w: World, step: StepA)
    requires c.walletA != c.walletB
    requires Inv(c, w) && Enabled(c, w, ByA(step))
    ensures var v := Apply(c, w, ByA(step)); MemoryA(c, v) && StoresA(c, v)
  {
    SpendsStep(c, w, ByA(step), A);
    SpendsStep(c, w, ByA(step), B);
  }

  lemma MemoryBUnderA(c: Config, w: World, step: StepA)
    requires c.walletA != c.walletB
    requires Inv(c, w) && Enabled(c, w, ByA(step))
    ensures MemoryB(c, Apply(c, w, ByA(step)))
  {
    SpendsStep(c, w, ByA(step), A);
    SpendsStep(c, w, ByA(step), B);
  }

  lemma StoresBUnderA(c: Config, w: World, step: StepA)
    requires c.walletA != c.walletB
    requires Inv(c, w) && Enabled(c, w, ByA(step))
    ensures StoresB(c, Apply(c, w, ByA(step)))
  {
    SpendsStep(c, w, ByA(step), A);
    SpendsStep(c, w, ByA(step), B);
  }

  lemma ChainsUnderA(c: Config, w: World, step: StepA)
    requires c.walletA != c.walletB
    requires Inv(c, w) && Enabled(c, w, ByA(step))
    ensures Chains(c, Apply(c, w, ByA(step)))
  {
    SpendsStep(c, w, ByA(step), A);
    SpendsStep(c, w, ByA(step), B);
  }

  lemma MemoryAUnderB(c: Config, w: World, step: StepB)
    requires c.walletA != c.walletB
    requires Inv(c, w) && Enabled(c, w, ByB(step))
    ensures MemoryA(c, Apply(c, w, ByB(step)))
  {
    SpendsStep(c, w, ByB(step), A);
    SpendsStep(c, w, ByB(step), B);
  }

  lemma StoresAUnderB(c: Config, w: World, step: StepB)
    requires c.walletA != c.walletB
    requires Inv(c, w) && Enabled(c, w, ByB(step))
    ensures StoresA(c, Apply(c, w, ByB(step)))
  {
    SpendsStep(c, w, ByB(step), A);
    SpendsStep(c, w, ByB(step), B);
  }

  lemma SideBUnderB(c: Config, w: World, step: StepB)
    requires c.walletA != c.walletB
    requires Inv(c, w) && Enabled(c, w, ByB(step))
    ensures var v := Apply(c, w, ByB(step)); MemoryB(c, v) && StoresB(c, v) && Chains(c, v)
  {
    SpendsStep(c, w, ByB(step), A);
    SpendsStep(c, w, ByB(step), B);
  }

  lemma SideAUnderRound(c: Config, w: World, step: Round)
    requires c.walletA != c.walletB
    requires Inv(c, w) && Enabled(c, w, Wire(step))
    ensures var v := Apply(c, w, Wire(step)); MemoryA(c, v) && StoresA(c, v)
  {
    SpendsStep(c, w, Wire(step), A);
    SpendsStep(c, w, Wire(step), B);
  }

  lemma SideBUnderRound(c: Config, w: World, step: Round)
    requires c.walletA != c.walletB
    requires Inv(c, w) && Enabled(c, w, Wire(step))
    ensures var v := Apply(c, w, Wire(step)); MemoryB(c, v) && StoresB(c, v) && Chains(c, v)
  {
    SpendsStep(c, w, Wire(step), A);
    SpendsStep(c, w, Wire(step), B);
  }

  lemma BuriedStep(c: Config, w: World, step: Step)
    requires SpentIsBuried(w) && Enabled(c, w, step)
    ensures SpentIsBuried(Apply(c, w, step))
  {
  }

  lemma InvMature(c: Config, w: World, k: nat)
    requires Inv(c, w) && k < |w.outputs|
    ensures Inv(c, Apply(c, w, Mature(k)))
  {
    SpendsStep(c, w, Mature(k), A);
    SpendsStep(c, w, Mature(k), B);
  }

  lemma InvStep(c: Config, w: World, step: Step)
    requires c.walletA != c.walletB
    requires Inv(c, w) && Enabled(c, w, step)
    ensures Inv(c, Apply(c, w, step))
  {
    BuriedStep(c, w, step);
    match step
    case ByA(s) => SideAUnderA(c, w, s); MemoryBUnderA(c, w, s); StoresBUnderA(c, w, s); ChainsUnderA(c, w, s);
    case ByB(s) => MemoryAUnderB(c, w, s); StoresAUnderB(c, w, s); SideBUnderB(c, w, s);
    case Wire(r) => SideAUnderRound(c, w, r); SideBUnderRound(c, w, r);
    case Mature(k) => InvMature(c, w, k);
  }

  lemma {:induction false} InvRun(c: Config, p: Crashes, w: World, steps: seq<Step>)
    requires c.walletA != c.walletB
    requires Inv(c, w) && Run(c, p, w, steps).Some?
    ensures Inv(c, Run(c, p, w, steps).value)
    decreases steps
  {
    if steps != [] {
      InvStep(c, w, steps[0]);
      InvRun(c, p, Apply(c, w, steps[0]), steps[1..]);
    }
  }

  /** ATOMICITY.  Whatever interleaving of steps, stops and restarts led here: A has swept
      Monero only if the claim confirmed (the XNO is B's), B only if the refund confirmed (the
      XNO is A's again), so neither ever holds both legs; and the claim confirms only over a
      Monero lock that is already buried. */
  lemma Atomic(c: Config, steps: seq<Step>)
    requires c.walletA != c.walletB
    requires Run(c, AnyCrash, Init, steps).Some?
    ensures var w := Run(c, AnyCrash, Init, steps).value;
            && (SweptBy(w, A) ==> ClaimLanded(c, w))
            && (SweptBy(w, B) ==> RefundLanded(c, w))
            && !(RefundLanded(c, w) && SweptBy(w, A))
            && !(ClaimLanded(c, w) && SweptBy(w, B))
            && (ClaimLanded(c, w) ==> LockBuried(w))
  {
    InvRun(c, AnyCrash, Init, steps);
  }

  /** Whoever sweeps has both shares, its own and the one the other's signature on chain published. */
  predicate HasBothShares(w: World) {
    && (SweptBy(w, A) ==> w.a.x == Some(Share(B)))
    && (SweptBy(w, B) ==>
        w.b.refund.Some? && w.account.Spent? && Extract(w.b.refund.value, w.account.sig) == Share(A))
  }

  lemma SharesStep(c: Config, w: World, step: Step)
    requires c.walletA != c.walletB && Inv(c, w) && HasBothShares(w) && Enabled(c, w, step)
    ensures HasBothShares(Apply(c, w, step))
  {
    SpendsStep(c, w, step, A);
    SpendsStep(c, w, step, B);
  }

  /** BOTH SHARES.  Over every run the Monero moves only by the joint secret: a sweep by A means its
      store holds B's share, taken from the claim on chain; one by B means the refund on chain yields
      A's. */
  lemma {:induction false} SweepsTakeBothShares(c: Config, w: World, steps: seq<Step>)
    requires c.walletA != c.walletB && Inv(c, w) && HasBothShares(w) && Run(c, AnyCrash, w, steps).Some?
    ensures HasBothShares(Run(c, AnyCrash, w, steps).value)
    decreases steps
  {
    if steps != [] {
      SharesStep(c, w, steps[0]);
      InvStep(c, w, steps[0]);
      SweepsTakeBothShares(c, Apply(c, w, steps[0]), steps[1..]);
    }
  }
}
