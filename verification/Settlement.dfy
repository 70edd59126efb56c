/** The two-party settlement protocol: `runA` and `runB` of web/two_party.js as one
    transition system over both stores, both drivers' volatile memory, the joint Nano
    account and the joint Monero address.

    Every external effect and every store write is a step of its own, so a driver can stop
    between any two of them.  A co-signing round is one step of both drivers; its result
    sits in memory until the driver writes it down.  Signatures are symbolic terms. */
module Settlement {
  import opened Common

  // ---------- terms ----------

  /** A sells XNO and funds the joint Nano account; B sells XMR and locks it. */
  datatype Party = A | B

  type Wallet = nat

  /** A share of the joint Monero key, or what extraction yields for a wrong pair. */
  datatype Share = Share(owner: Party) | Garbage

  /** A send emptying the joint account.  `previous` names the open block by the funding it pockets. */
  datatype SendBlock = SendBlock(previous: nat, dest: Wallet)

  /** An adaptor pre-signature: completing it takes (and publishes) the share of `point`.
      Rounds draw fresh nonces, so two rounds never produce the same pre-signature. */
  datatype PreSig = PreSig(block: SendBlock, point: Party, round: nat)

  datatype Sig = Sig(pre: PreSig, secret: Share)

  predicate SigValid(sig: Sig) {
    sig.secret == Share(sig.pre.point)
  }

  function Complete(pre: PreSig, share: Share): Sig {
    Sig(pre, share)
  }

  function Extract(pre: PreSig, sig: Sig): Share {
    if sig.pre == pre then sig.secret else Garbage
  }

  predicate JointSecret(mine: Share, theirs: Share) {
    {mine, theirs} == {Share(A), Share(B)}
  }

  // ---------- state ----------

  /** The joint Nano account: the open block has at most one successor. */
  datatype Account = Unopened | Opened(open: nat) | Spent(sig: Sig)

  /** `mature`: as deep as the drivers wait for.  One depth stands for the deal's, at which A goes
      on, and for the ten blocks that sweeping needs. */
  datatype Output = Output(mature: bool, spentBy: Option<Party>)

  datatype StoreA = StoreA(
    fund: bool, open: Option<nat>, refund: Option<PreSig>, lockseen: Option<nat>,
    presigned: Option<PreSig>, x: Option<Share>, sweep: bool, refunded: bool)

  datatype LockMark = NoLock | Skipped | Locked(output: nat)

  datatype StoreB = StoreB(
    open: Option<nat>, refund: Option<PreSig>, lock: LockMark,
    declined: bool, claim: bool, recovered: bool)

  /** What a running driver has done or holds but not yet written to its store. */
  datatype Memory =
    | Idle
    | FundSent
    | OpenSigned(open: nat)
    | OpenSent(open: nat)
    | RefundSigned(pre: PreSig)
    | RefundSent
    | LockSent(output: nat)
    | ClaimSigned(pre: PreSig)
    | ClaimSent
    | SweepSent

  datatype World = World(
    a: StoreA, b: StoreB, memA: Memory, memB: Memory,
    account: Account, fundings: nat, outputs: seq<Output>, rounds: nat)

  datatype Config = Config(walletA: Wallet, walletB: Wallet)

  const Init := World(
    StoreA(false, None, None, None, None, None, false, false),
    StoreB(None, None, NoLock, false, false, false),
    Idle, Idle, Unopened, 0, [], 0)

  // ---------- steps ----------

  datatype RefundReason = LockNeverSeen | GateRefused | CosignUnavailable | ClaimTimeout | Manual

  /** What A's driver does alone. */
  datatype StepA =
    | AFund | AFundStore
    | AOpenBroadcast | AOpenStore
    | ARefundPreStore
    | ALockSeen(output: nat)
    | ARefund(reason: RefundReason) | ARefundStore
    | AClaimPreStore
    | AObserveRefund | AExtract
    | ASweep(output: nat) | ASweepStore
    | AStop

  /** What B's driver does alone. */
  datatype StepB =
    | BOpenStore
    | BRefundPreStore
    | BSkipLock | BDecline
    | BLock | BLockStore
    | BClaimBroadcast | BClaimStore
    | BObserveClaim
    | BRecover(output: nat) | BRecoverStore | BCloseOut
    | BStop

  /** A co-signing round of both drivers over the wire. */
  datatype Round = RoundOpen(funding: nat) | RoundRefund | RoundClaim

  datatype Step =
    | ByA(sa: StepA)
    | ByB(sb: StepB)
    | Wire(round: Round)
    | Mature(output: nat)  // the Monero chain buries an output as deep as the drivers wait for

  predicate Unspent(w: World, k: nat) {
    k < |w.outputs| && w.outputs[k].mature && w.outputs[k].spentBy == None
  }

  /** The joint account's frontier is no longer the given open block. */
  predicate Moved(w: World, open: nat) {
    match w.account
    case Unopened => false
    case Opened(o) => o != open
    case Spent(_) => true
  }

  predicate RefundGuard(w: World, reason: RefundReason) {
    match reason
    case LockNeverSeen => w.a.lockseen == None
    case GateRefused => w.a.lockseen.Some? && w.a.presigned == None
    case CosignUnavailable => w.a.lockseen.Some? && w.a.presigned == None
    case ClaimTimeout => w.a.presigned.Some? && w.a.x == None
    case Manual => !w.a.refunded && w.a.x == None && !w.a.sweep
  }

  function RefundBlock(c: Config, open: nat): SendBlock {
    SendBlock(open, c.walletA)
  }

  function ClaimBlock(c: Config, open: nat): SendBlock {
    SendBlock(open, c.walletB)
  }

  predicate EnabledA(c: Config, w: World, step: StepA) {
    match step
    case AFund => w.memA == Idle && !w.a.fund
    case AFundStore => w.memA == FundSent
    case AOpenBroadcast => w.memA.OpenSigned? && w.account == Unopened
    case AOpenStore => w.memA.OpenSent?
    case ARefundPreStore => w.memA.RefundSigned?
    case ALockSeen(k) =>
      w.memA == Idle && w.a.refund.Some? && w.a.lockseen == None && k < |w.outputs| && w.outputs[k].mature
    case ARefund(reason) =>
      && w.memA == Idle && w.a.open.Some? && w.a.refund.Some? && RefundGuard(w, reason)
      && w.account == Opened(w.a.open.value)
    case ARefundStore => w.memA == RefundSent
    case AClaimPreStore => w.memA.ClaimSigned?
    case AObserveRefund =>
      && w.memA == Idle && w.a.presigned.Some? && w.a.x == None && w.a.refund.Some?
      && w.account.Spent? && w.account.sig.pre.block.dest == w.a.refund.value.block.dest
    case AExtract =>
      && w.memA == Idle && w.a.presigned.Some? && w.a.x == None && w.a.refund.Some?
      && w.account.Spent? && w.account.sig.pre.block.dest != w.a.refund.value.block.dest
    case ASweep(k) =>
      w.memA == Idle && w.a.x.Some? && !w.a.sweep && Unspent(w, k) && JointSecret(Share(A), w.a.x.value)
    case ASweepStore => w.memA == SweepSent
    case AStop => true
  }

  function ApplyA(c: Config, w: World, step: StepA): World
    requires EnabledA(c, w, step)
  {
    match step
    case AFund => w.(fundings := w.fundings + 1, memA := FundSent)
    case AFundStore => w.(a := w.a.(fund := true), memA := Idle)
    case AOpenBroadcast => w.(account := Opened(w.memA.open), memA := OpenSent(w.memA.open))
    case AOpenStore => w.(a := w.a.(open := Some(w.memA.open)), memA := Idle)
    case ARefundPreStore => w.(a := w.a.(refund := Some(w.memA.pre)), memA := Idle)
    case ALockSeen(k) => w.(a := w.a.(lockseen := Some(k)))
    case ARefund(_) => w.(account := Spent(Complete(w.a.refund.value, Share(A))), memA := RefundSent)
    case ARefundStore => w.(a := w.a.(refunded := true), memA := Idle)
    case AClaimPreStore => w.(a := w.a.(presigned := Some(w.memA.pre)), memA := Idle)
    case AObserveRefund => w.(a := w.a.(refunded := true))
    case AExtract => w.(a := w.a.(x := Some(Extract(w.a.presigned.value, w.account.sig))))
    case ASweep(k) => w.(outputs := w.outputs[k := w.outputs[k].(spentBy := Some(A))], memA := SweepSent)
    case ASweepStore => w.(a := w.a.(sweep := true), memA := Idle)
    case AStop => w.(memA := Idle)
  }

  predicate EnabledB(c: Config, w: World, step: StepB) {
    match step
    case BOpenStore => w.memB.OpenSigned?
    case BRefundPreStore => w.memB.RefundSigned?
    case BSkipLock =>
      w.memB == Idle && w.b.open.Some? && w.b.refund.Some? && w.b.lock == NoLock && Moved(w, w.b.open.value)
    case BDecline => w.memB == Idle && w.b.lock == NoLock
    case BLock => w.memB == Idle && w.b.refund.Some? && w.b.lock == NoLock
    case BLockStore => w.memB.LockSent?
    case BClaimBroadcast => w.memB.ClaimSigned? && w.account == Opened(w.memB.pre.block.previous)
    case BClaimStore => w.memB == ClaimSent
    case BObserveClaim =>
      && w.memB == Idle && w.b.lock != NoLock && !w.b.claim
      && w.account.Spent? && w.account.sig.pre.block.dest == c.walletB
    case BRecover(k) =>
      && w.memB == Idle && w.b.lock.Locked? && w.b.refund.Some? && !w.b.claim
      && w.account.Spent? && w.account.sig.pre.block.dest != c.walletB
      && Unspent(w, k) && JointSecret(Share(B), Extract(w.b.refund.value, w.account.sig))
    case BRecoverStore => w.memB == SweepSent
    case BCloseOut =>
      && w.memB == Idle && w.b.lock != NoLock && !w.b.claim
      && w.account.Spent? && w.account.sig.pre.block.dest != c.walletB
    case BStop => true
  }

  function ApplyB(c: Config, w: World, step: StepB): World
    requires EnabledB(c, w, step)
  {
    match step
    case BOpenStore => w.(b := w.b.(open := Some(w.memB.open)), memB := Idle)
    case BRefundPreStore => w.(b := w.b.(refund := Some(w.memB.pre)), memB := Idle)
    case BSkipLock => w.(b := w.b.(lock := Skipped))
    case BDecline => w.(b := w.b.(declined := true))
    case BLock => w.(outputs := w.outputs + [Output(false, None)], memB := LockSent(|w.outputs|))
    case BLockStore => w.(b := w.b.(lock := Locked(w.memB.output)), memB := Idle)
    case BClaimBroadcast => w.(account := Spent(Complete(w.memB.pre, Share(B))), memB := ClaimSent)
    case BClaimStore => w.(b := w.b.(claim := true), memB := Idle)
    case BObserveClaim => w.(b := w.b.(claim := true))
    case BRecover(k) => w.(outputs := w.outputs[k := w.outputs[k].(spentBy := Some(B))], memB := SweepSent)
    case BRecoverStore => w.(b := w.b.(recovered := true), memB := Idle)
    case BCloseOut => w.(b := w.b.(recovered := true))
    case BStop => w.(memB := Idle)
  }

  predicate EnabledRound(c: Config, w: World, round: Round) {
    && w.memA == Idle && w.memB == Idle
    && match round
       case RoundOpen(i) =>
         // both see the same pending funding, not pocketed yet
         && w.a.fund && w.a.open == None && w.b.open == None
         && i < w.fundings && w.account != Opened(i)
         && (w.account.Spent? ==> w.account.sig.pre.block.previous != i)
       case RoundRefund =>
         w.a.open.Some? && w.a.refund == None && w.b.open == w.a.open && w.b.refund == None
       case RoundClaim =>
         && w.a.open.Some? && w.a.refund.Some? && w.a.lockseen.Some? && w.a.presigned == None
         && w.b.open == w.a.open && w.b.refund.Some? && w.b.lock != NoLock && !w.b.claim
  }

  /** A finished round leaves the same signature in both drivers' memory. */
  function ApplyRound(c: Config, w: World, round: Round): World
    requires EnabledRound(c, w, round)
  {
    var m :=
      match round
      case RoundOpen(i) => OpenSigned(i)
      case RoundRefund => RefundSigned(PreSig(RefundBlock(c, w.a.open.value), A, w.rounds))
      case RoundClaim => ClaimSigned(PreSig(ClaimBlock(c, w.a.open.value), B, w.rounds));
    w.(memA := m, memB := m, rounds := w.rounds + 1)
  }

  predicate Enabled(c: Config, w: World, step: Step) {
    match step
    case ByA(s) => EnabledA(c, w, s)
    case ByB(s) => EnabledB(c, w, s)
    case Wire(r) => EnabledRound(c, w, r)
    case Mature(k) => k < |w.outputs|
  }

  function Apply(c: Config, w: World, step: Step): World
    requires Enabled(c, w, step)
  {
    match step
    case ByA(s) => ApplyA(c, w, s)
    case ByB(s) => ApplyB(c, w, s)
    case Wire(r) => ApplyRound(c, w, r)
    case Mature(k) => w.(outputs := w.outputs[k := w.outputs[k].(mature := true)])
  }

  // ---------- runs ----------

  /** Which mid-write crashes a run may contain: A between a completed claim or refund round
      and its store write, B between the Monero lock broadcast and its store write.

      A round whose last message is lost finishes on one side only, without any crash: the other
      side's `recv` times out and the driver goes on with nothing.  That is the same pair of
      steps, the round and A's loss of its memory, so A's two windows stand for it as well. */
  datatype Crashes = Crashes(claimWindow: bool, refundWindow: bool, lockWindow: bool)

  const AnyCrash := Crashes(true, true, true)

  predicate Allowed(p: Crashes, w: World, step: Step) {
    && (step == ByA(AStop) && w.memA.ClaimSigned? ==> p.claimWindow)
    && (step == ByA(AStop) && w.memA.RefundSigned? ==> p.refundWindow)
    && (step == ByB(BStop) && w.memB.LockSent? ==> p.lockWindow)
  }

  /** The world after `steps`, or None when some step is not possible where it stands. */
  function Run(c: Config, p: Crashes, w: World, steps: seq<Step>): Option<World>
    decreases steps
  {
    if steps == [] then Some(w)
    else if Enabled(c, w, steps[0]) && Allowed(p, w, steps[0]) then Run(c, p, Apply(c, w, steps[0]), steps[1..])
    else None
  }

  lemma {:induction false} RunConcat(c: Config, p: Crashes, w: World, s: seq<Step>, t: seq<Step>)
    requires Run(c, p, w, s).Some?
    ensures Run(c, p, w, s + t) == Run(c, p, Run(c, p, w, s).value, t)
    decreases s
  {
    if s == [] {
      assert s + t == t;
    } else {
      assert (s + t)[1..] == s[1..] + t;
      RunConcat(c, p, Apply(c, w, s[0]), s[1..], t);
    }
  }

  // ---------- atomicity ----------

  predicate RefundLanded(c: Config, w: World) {
    w.account.Spent? && w.account.sig.pre.block.dest == c.walletA
  }

  predicate ClaimLanded(c: Config, w: World) {
    w.account.Spent? && w.account.sig.pre.block.dest == c.walletB
  }

  predicate SweptBy(w: World, p: Party) {
    exists k :: 0 <= k < |w.outputs| && w.outputs[k].spentBy == Some(p)
  }

  /** Some Monero lock on the joint address is as deep as the drivers wait for. */
  predicate LockBuried(w: World) {
    exists k :: 0 <= k < |w.outputs| && w.outputs[k].mature
  }
}
