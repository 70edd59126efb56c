/** The drivers themselves: `runA`, `runB` and `refundNow` of web/two_party.js in their own
    order of tests and store writes, running against a world the other side keeps changing.
    The world's whole history is kept beside it: every execution is a run of the settlement
    transition system, and every reason a driver gives for stopping short is an event or a
    state in that history.  Apart from lost store writes, a driver that holds the refund
    always ends well. */
module Drivers {
  import opened Common
  import opened Settlement
  import opened Atomicity
  import opened Recoverability
  import opened CloseOut
  import LockWait

  // ---------- histories ----------

  predicate Follows(c: Config, w: World, step: Step, v: World) {
    Enabled(c, w, step) && v == Apply(c, w, step)
  }

  ghost predicate IsHistory(c: Config, worlds: seq<World>, steps: seq<Step>) {
    && |worlds| == |steps| + 1
    && forall i {:trigger steps[i]} ::
         0 <= i < |steps| ==> Follows(c, worlds[i], steps[i], worlds[i + 1])
  }

  lemma HistoryGrows(c: Config, worlds: seq<World>, steps: seq<Step>, step: Step, v: World)
    requires IsHistory(c, worlds, steps) && Follows(c, worlds[|steps|], step, v)
    ensures IsHistory(c, worlds + [v], steps + [step])
  {
    var (ws, ss) := (worlds + [v], steps + [step]);
    forall i | 0 <= i < |ss| ensures Follows(c, ws[i], ss[i], ws[i + 1]) {
      if i < |steps| {
        assert Follows(c, worlds[i], steps[i], worlds[i + 1]);
      }
    }
  }

  lemma {:induction false} HistoryIsRun(c: Config, worlds: seq<World>, steps: seq<Step>)
    requires IsHistory(c, worlds, steps)
    ensures Run(c, AnyCrash, worlds[0], steps) == Some(worlds[|steps|])
    decreases steps
  {
    if steps != [] {
      assert IsHistory(c, worlds[1..], steps[1..]) by {
        forall i | 0 <= i < |steps| - 1
          ensures Follows(c, worlds[1..][i], steps[1..][i], worlds[1..][i + 1])
        {
          assert steps[1..][i] == steps[i + 1];
        }
      }
      HistoryIsRun(c, worlds[1..], steps[1..]);
    }
  }

  /** The party stops with an effect done and not written down. */
  predicate LosesWrite(p: Party, w: World, step: Step) {
    match p
    case A => step == ByA(AStop) && w.memA != Idle && !w.memA.OpenSigned?
    case B => step == ByB(BStop) && w.memB != Idle && !w.memB.ClaimSigned?
  }

  // ---------- store writes ----------

  /** The store write that follows each effect, and the store after it. */
  function WriteA(mem: Memory): StepA {
    match mem
    case FundSent => AFundStore
    case OpenSent(_) => AOpenStore
    case RefundSigned(_) => ARefundPreStore
    case RefundSent => ARefundStore
    case ClaimSigned(_) => AClaimPreStore
    case SweepSent => ASweepStore
    case _ => AStop
  }

  function WrittenA(a: StoreA, mem: Memory): StoreA {
    match mem
    case FundSent => a.(fund := true)
    case OpenSent(o) => a.(open := Some(o))
    case RefundSigned(pre) => a.(refund := Some(pre))
    case RefundSent => a.(refunded := true)
    case ClaimSigned(pre) => a.(presigned := Some(pre))
    case SweepSent => a.(sweep := true)
    case _ => a
  }

  function WriteB(mem: Memory): StepB {
    match mem
    case OpenSigned(_) => BOpenStore
    case RefundSigned(_) => BRefundPreStore
    case LockSent(_) => BLockStore
    case ClaimSent => BClaimStore
    case SweepSent => BRecoverStore
    case _ => BStop
  }

  function WrittenB(b: StoreB, mem: Memory): StoreB {
    match mem
    case OpenSigned(o) => b.(open := Some(o))
    case RefundSigned(pre) => b.(refund := Some(pre))
    case LockSent(k) => b.(lock := Locked(k))
    case ClaimSent => b.(claim := true)
    case SweepSent => b.(recovered := true)
    case _ => b
  }

  datatype Outcome = Done | Refunded | Declined | Recovered | Stopped

  /** Why a driver stopped short. */
  datatype Reason =
    | WriteLost       // it stopped between an effect and its store write
    | NoFunding       // no funding both sides see and have not opened
    | NoCosigner      // the other side is not at the refund round
    | NoClaimRound    // the other side is not at the claim round
    | AlreadyOpened   // the node refuses the open
    | AccountMoved    // the node refuses a second successor
    | LockUnseen      // the sweep's wait ended without a hit
    | NothingToSweep

  /** A reason and the point of the history it refers to. */
  datatype Excuse = Excuse(at: nat, why: Reason)

  predicate FundingFor(c: Config, w: World, i: nat) {
    i < w.fundings && EnabledRound(c, w, RoundOpen(i))
  }

  /** The claim on chain is of a round A has no record of. */
  predicate ClaimUnrecorded(c: Config, w: World) {
    ClaimLanded(c, w) && w.a.presigned != Some(w.account.sig.pre)
  }

  /** What A extracts from a claim it has the record of is B's share. */
  lemma ExtractedFromRecord(c: Config, w: World)
    requires c.walletA != c.walletB && Inv(c, w) && w.a.x.Some? && w.a.x != Some(Share(B))
    ensures ClaimUnrecorded(c, w)
  {
  }

  // ---------- what a driver meets ----------

  /** How the claim round ends for A: with nobody there; with B holding the result and A not,
      the last message having been lost; or complete. */
  datatype CoSign = Away | Halfway | Complete

  /** What A's driver meets: the passes of its two waits for the lock, the gate's verdict, the
      claim round, and how many looks its claim deadline allows. */
  datatype Meets = Meets(
    lockLooks: seq<LockWait.Look>, certified: bool, reply: CoSign, patience: nat, sweepLooks: seq<LockWait.Look>)

  /** B's hunt after a refund: its passes, the height recorded for the lock (0 for none) and the
      block the lock is in. */
  datatype Hunting = Hunting(passes: seq<LockWait.Pass>, lockHeight: nat, block: nat)

  predicate Sights(hunt: Hunting) {
    LockWait.SeenIn(hunt.passes, hunt.lockHeight, LockWait.HUNT_LOOKBACK, hunt.block)
  }

  /** One of the looks made from `since` up to `upTo` saw an output. */
  ghost predicate Visible(looks: seq<LockWait.Look>, met: seq<World>, since: nat, upTo: nat) {
    exists k :: since <= k < upTo && k < |met| && k - since < |looks| && looks[k - since].sees && met[k].outputs != []
  }

  /** No look met a visible, buried lock. */
  ghost predicate AllMissed(looks: seq<LockWait.Look>, met: seq<World>, since: nat, upTo: nat) {
    upTo <= |met| &&
    forall k :: since <= k < upTo ==> !(LockBuried(met[k]) && Visible(looks, met, since, k + 1))
  }

  /** The looks from `since` on all missed, up to the last of them or to one the gate refused
      after with nothing visible. */
  ghost predicate NeverSeen(looks: seq<LockWait.Look>, met: seq<World>, since: nat, used: nat) {
    && used <= |looks| && AllMissed(looks, met, since, since + used)
    && (used < |looks| ==> used > 0 && looks[used - 1].refused && !Visible(looks, met, since, since + used))
  }

  ghost predicate AllBuriedAt(met: seq<World>, since: nat, upTo: nat) {
    upTo <= |met| && forall k :: since <= k < upTo ==> LockBuried(met[k])
  }

  lemma NotInTime(looks: seq<LockWait.Look>, met: seq<World>, since: nat, used: nat)
    requires NeverSeen(looks, met, since, used) && AllBuriedAt(met, since, since + used)
    ensures !LockWait.SeesInTime(looks)
  {
    forall j | 0 <= j < used ensures !looks[j].sees {
      assert LockBuried(met[since + j]);
    }
  }

  lemma InTime(looks: seq<LockWait.Look>, met: seq<World>, since: nat, upTo: nat)
    requires since <= upTo && upTo - since < |looks|
    requires AllMissed(looks, met, since, upTo) && AllBuriedAt(met, since, upTo)
    requires Visible(looks, met, since, upTo + 1)
    requires forall j :: 0 <= j < upTo - since && looks[j].refused ==> Visible(looks, met, since, since + j + 1)
    ensures LockWait.SeesInTime(looks)
  {
    var k :| since <= k < upTo + 1 && k < |met| && k - since < |looks| && looks[k - since].sees
      && met[k].outputs != [];
    forall j | 0 <= j < k - since ensures !looks[j].refused {
      assert LockBuried(met[since + j]);
    }
  }

  /** More looks change nothing about those already made. */
  lemma StillVisible(looks: seq<LockWait.Look>, met: seq<World>, more: seq<World>, since: nat, upTo: nat)
    requires met <= more && upTo <= |met|
    ensures Visible(looks, met, since, upTo) <==> Visible(looks, more, since, upTo)
  {
    if Visible(looks, more, since, upTo) {
      var k :| since <= k < upTo && k - since < |looks| && looks[k - since].sees && more[k].outputs != [];
      assert met[k] == more[k];
    }
    if Visible(looks, met, since, upTo) {
      var k :| since <= k < upTo && k - since < |looks| && looks[k - since].sees && met[k].outputs != [];
      assert met[k] == more[k];
    }
  }

  lemma OneMore(looks: seq<LockWait.Look>, met: seq<World>, w: World, since: nat)
    requires since <= |met| < since + |looks| && AllMissed(looks, met, since, |met|)
    ensures var more := met + [w];
            && AllMissed(looks, more, since, |met|)
            && (forall upTo: nat :: upTo <= |met| ==>
                  (Visible(looks, more, since, upTo) <==> Visible(looks, met, since, upTo)))
            && (Visible(looks, more, since, |met| + 1) <==>
                Visible(looks, met, since, |met|) || (looks[|met| - since].sees && w.outputs != []))
  {
    var more := met + [w];
    StillMissed(looks, met, more, since, |met|);
    forall upTo: nat | upTo <= |met|
      ensures Visible(looks, more, since, upTo) <==> Visible(looks, met, since, upTo)
    {
      StillVisible(looks, met, more, since, upTo);
    }
    assert more[|met|] == w;
    if Visible(looks, more, since, |met|) {
      var k :| since <= k < |met| && k - since < |looks| && looks[k - since].sees && more[k].outputs != [];
      assert more[k].outputs != [];
    }
  }

  lemma StillMissed(looks: seq<LockWait.Look>, met: seq<World>, more: seq<World>, since: nat, upTo: nat)
    requires met <= more && AllMissed(looks, met, since, upTo)
    ensures AllMissed(looks, more, since, upTo)
  {
    forall k | since <= k < upTo ensures !(LockBuried(more[k]) && Visible(looks, more, since, k + 1)) {
      assert met[k] == more[k];
      StillVisible(looks, met, more, since, k + 1);
    }
  }

  lemma StillNeverSeen(looks: seq<LockWait.Look>, met: seq<World>, more: seq<World>, since: nat, used: nat)
    requires NeverSeen(looks, met, since, used) && met <= more
    ensures NeverSeen(looks, more, since, used)
  {
    StillMissed(looks, met, more, since, since + used);
    StillVisible(looks, met, more, since, since + used);
  }

  /** A wait still on: all looks so far missed, the cache holds an output exactly when one was
      visible, and the gate refused only with one there. */
  ghost predicate Watched(looks: seq<LockWait.Look>, met: seq<World>, since: nat, cached: bool) {
    && since <= |met| <= since + |looks|
    && AllMissed(looks, met, since, |met|) && (cached <==> Visible(looks, met, since, |met|))
    && forall j :: 0 <= j < |met| - since && looks[j].refused ==> Visible(looks, met, since, since + j + 1)
  }

  predicate NowVisible(look: LockWait.Look, w: World, cached: bool) {
    cached || (look.sees && w.outputs != [])
  }

  /** An output as deep as the wait asks for. */
  function FindBuried(w: World): (hit: Option<nat>)
    ensures hit.Some? ==> hit.value < |w.outputs| && w.outputs[hit.value].mature
    ensures hit == None ==> !LockBuried(w)
  {
    FindBuriedFrom(w, 0)
  }

  function FindBuriedFrom(w: World, k: nat): (hit: Option<nat>)
    requires k <= |w.outputs| && forall j :: 0 <= j < k ==> !w.outputs[j].mature
    ensures hit.Some? ==> hit.value < |w.outputs| && w.outputs[hit.value].mature
    ensures hit == None ==> !LockBuried(w)
    decreases |w.outputs| - k
  {
    if k == |w.outputs| then None else if w.outputs[k].mature then Some(k) else FindBuriedFrom(w, k + 1)
  }

  lemma GoesOn(looks: seq<LockWait.Look>, met: seq<World>, w: World, since: nat, cached: bool)
    requires Watched(looks, met, since, cached) && |met| - since < |looks|
    requires var look := looks[|met| - since];
             if NowVisible(look, w, cached) then !LockBuried(w) else !look.refused
    ensures Watched(looks, met + [w], since, NowVisible(looks[|met| - since], w, cached))
  {
    OneMore(looks, met, w, since);
  }

  lemma GivesUp(looks: seq<LockWait.Look>, met: seq<World>, w: World, since: nat, cached: bool)
    requires Watched(looks, met, since, cached) && |met| - since < |looks|
    requires var look := looks[|met| - since]; !NowVisible(look, w, cached) && look.refused
    ensures NeverSeen(looks, met + [w], since, |met| - since + 1)
  {
    OneMore(looks, met, w, since);
  }

  lemma FindsInTime(looks: seq<LockWait.Look>, met: seq<World>, w: World, since: nat, cached: bool)
    requires Watched(looks, met, since, cached) && |met| - since < |looks|
    requires NowVisible(looks[|met| - since], w, cached) && AllBuriedAt(met, since, |met|)
    ensures LockWait.SeesInTime(looks)
  {
    OneMore(looks, met, w, since);
    assert AllBuriedAt(met + [w], since, |met|);
    InTime(looks, met + [w], since, |met|);
  }

  /** The account had no successor at any of these looks. */
  ghost predicate Unclaimed(met: seq<World>, since: nat, upTo: nat) {
    upTo <= |met| && forall k :: since <= k < upTo ==> !met[k].account.Spent?
  }

  /** The rounds a driver still has before it, up to the refund. */
  function OpensA(w: World): nat { if w.a.open == None then 1 else 0 }
  function RefundsA(w: World): nat { if w.a.refund == None then 1 else 0 }
  function ClaimsA(w: World, certified: bool): nat { if w.a.presigned == None && certified then 1 else 0 }
  function OpensB(w: World): nat { if w.b.open == None then 1 else 0 }
  function RefundsB(w: World): nat { if w.b.refund == None then 1 else 0 }

  /** B's store records a lock, the refund has published A's share, and a buried lock is there. */
  predicate Takeable(w: World) {
    && w.b.lock.Locked? && w.b.refund.Some? && w.account.Spent?
    && JointSecret(Share(B), Extract(w.b.refund.value, w.account.sig)) && HasTakeable(w)
  }

  /** At none of these looks was there a lock for the hunt to see. */
  ghost predicate Untaken(sees: bool, met: seq<World>, since: nat, upTo: nat) {
    upTo <= |met| && forall k :: since <= k < upTo ==> !(sees && Takeable(met[k]))
  }

  /** Why A broadcast its refund, where it stood, and which of its looks it refers to. */
  datatype Cause = Cause(reason: RefundReason, at: World, since: nat, used: nat)

  /** B and the Monero chain went on from v to w, A waiting. */
  predicate Meanwhile(c: Config, v: World, w: World) {
    && w.a == v.a && w.memA == v.memA && w.fundings == v.fundings && w.rounds == v.rounds
    && (v.account.Spent? ==> w.account == v.account)
    && (RefundLanded(c, w) ==> RefundLanded(c, v))
    && (SweptBy(v, A) <==> SweptBy(w, A))
    && (LockBuried(v) ==> LockBuried(w))
  }

  lemma MeanwhileStep(c: Config, v: World, w: World, step: Step)
    requires c.walletA != c.walletB && Inv(c, w) && Meanwhile(c, v, w) && AlongB(step) && Enabled(c, w, step)
    ensures Meanwhile(c, v, Apply(c, w, step))
  {
    SpendsStep(c, w, step, A);
    if LockBuried(w) {
      var k :| 0 <= k < |w.outputs| && w.outputs[k].mature;
      assert Apply(c, w, step).outputs[k].mature;
    }
  }

  /** One swap as both drivers see it: their stores, their memory and the two chains. */
  class Session {
    const c: Config
    const mayStop: bool  // whether the driver at hand can be stopped before a store write
    var w: World
    ghost var worlds: seq<World>
    ghost var steps: seq<Step>
    ghost var excuse: Excuse
    ghost var looked: seq<World>  // what the driver found after each time it let the other go on
    ghost var waited: nat         // where in `looked` B's last bounded wait begins
    ghost var cause: Cause        // of the last refund A broadcast

    ghost predicate Valid()
      reads this
    {
      c.walletA != c.walletB && Inv(c, w) && IsHistory(c, worlds, steps) && worlds[0] == Init && worlds[|steps|] == w
    }

    constructor (walletA: Wallet, walletB: Wallet, mayStop: bool)
      requires walletA != walletB
      ensures Valid() && w == Init && worlds == [Init] && steps == [] && looked == []
      ensures c == Config(walletA, walletB) && this.mayStop == mayStop
    {
      this.mayStop := mayStop;
      c := Config(walletA, walletB);
      w, worlds, steps := Init, [Init], [];
      excuse, looked, waited, cause := Excuse(0, WriteLost), [], 0, Cause(Manual, Init, 0, 0);
    }

    /** ATOMIC AT REST.  Wherever the drivers leave a session, what is proved of all runs holds. */
    lemma Safe()
      requires Valid()
      ensures SweptBy(w, A) ==> ClaimLanded(c, w)
      ensures SweptBy(w, B) ==> RefundLanded(c, w)
      ensures ClaimLanded(c, w) ==> LockBuried(w)
    {
      HistoryIsRun(c, worlds, steps);
      Atomic(c, steps);
    }

    method Do(step: Step)
      requires Valid() && Enabled(c, w, step)
      modifies this`w, this`worlds, this`steps
      ensures Valid() && w == Apply(c, old(w), step)
      ensures worlds == old(worlds) + [w] && steps == old(steps) + [step]
    {
      InvStep(c, w, step);
      HistoryGrows(c, worlds, steps, step, Apply(c, w, step));
      w := Apply(c, w, step);
      worlds, steps := worlds + [w], steps + [step];
    }

    /** While A waits, B's driver and the Monero chain do as they please. */
    method LetB(schedule: seq<Step>)
      requires Valid()
      modifies this`w, this`worlds, this`steps
      ensures Valid() && old(worlds) <= worlds && old(steps) <= steps && Meanwhile(c, old(w), w)
    {
      for i := 0 to |schedule|
        invariant Valid() && old(worlds) <= worlds && old(steps) <= steps && Meanwhile(c, old(w), w)
      {
        if AlongB(schedule[i]) && Enabled(c, w, schedule[i]) {
          MeanwhileStep(c, old(w), w, schedule[i]);
          Do(schedule[i]);
        }
      }
    }

    /** While B waits, A's driver and the Monero chain do; none of it adds or takes back an
        output, or undoes what B swept. */
    method LetA(schedule: seq<Step>)
      requires Valid()
      modifies this`w, this`worlds, this`steps
      ensures Valid() && old(worlds) <= worlds && old(steps) <= steps
      ensures w.b == old(w.b) && w.memB == old(w.memB) && w.rounds == old(w.rounds)
      ensures old(w.account).Spent? ==> w.account == old(w.account)
      ensures |w.outputs| == |old(w.outputs)| && (SweptBy(old(w), B) <==> SweptBy(w, B))
    {
      for i := 0 to |schedule|
        invariant Valid() && old(worlds) <= worlds && old(steps) <= steps
        invariant w.b == old(w.b) && w.memB == old(w.memB) && w.rounds == old(w.rounds)
        invariant old(w.account).Spent? ==> w.account == old(w.account)
        invariant |w.outputs| == |old(w.outputs)| && (SweptBy(old(w), B) <==> SweptBy(w, B))
      {
        if AlongA(schedule[i]) && Enabled(c, w, schedule[i]) {
          SpendsStep(c, w, schedule[i], B);
          Do(schedule[i]);
        }
      }
    }

    /** A lets B go on, and then looks. */
    method BWhile()
      requires Valid()
      modifies this`w, this`worlds, this`steps, this`looked
      ensures Valid() && old(worlds) <= worlds && old(steps) <= steps && Meanwhile(c, old(w), w)
      ensures looked == old(looked) + [w]
    {
      var schedule: seq<Step> := *;
      LetB(schedule);
      looked := looked + [w];
    }

    method AWhile()
      requires Valid()
      modifies this`w, this`worlds, this`steps, this`looked
      ensures Valid() && old(worlds) <= worlds && old(steps) <= steps
      ensures w.b == old(w.b) && w.memB == old(w.memB) && w.rounds == old(w.rounds)
      ensures old(w.account).Spent? ==> w.account == old(w.account)
      ensures |w.outputs| == |old(w.outputs)| && (SweptBy(old(w), B) <==> SweptBy(w, B))
      ensures looked == old(looked) + [w]
    {
      var schedule: seq<Step> := *;
      LetA(schedule);
      looked := looked + [w];
    }

    /** The driver could be stopped, and really was stopped with an unwritten effect, since point
        `from` of the history. */
    ghost predicate LostWrite(p: Party, from: nat)
      reads this
    {
      && mayStop && from <= excuse.at < |steps| < |worlds|
      && excuse.why == WriteLost && LosesWrite(p, worlds[excuse.at], steps[excuse.at])
    }

    method WriteDownA()
      requires Valid() && w.memA != Idle && !w.memA.OpenSigned?
      modifies this`w, this`worlds, this`steps
      ensures Valid() && old(worlds) <= worlds && old(steps) <= steps
      ensures w == old(w).(a := WrittenA(old(w.a), old(w.memA)), memA := Idle)
    {
      Do(ByA(WriteA(w.memA)));
    }

    /** Write down what the last effect produced, unless the driver stops first. */
    method PersistA() returns (ok: bool)
      requires Valid() && w.memA != Idle && !w.memA.OpenSigned?
      modifies this
      ensures Valid() && old(worlds) <= worlds && old(steps) <= steps
      ensures w.memA == Idle && w.fundings == old(w.fundings) && w.rounds == old(w.rounds)
      ensures old(looked) <= looked && cause == old(cause)
      ensures w.a == if ok then WrittenA(old(w.a), old(w.memA)) else old(w.a)
      ensures old(w.account).Spent? ==> w.account == old(w.account)
      ensures (RefundLanded(c, w) ==> RefundLanded(c, old(w))) && (SweptBy(old(w), A) <==> SweptBy(w, A))
      ensures !ok ==> LostWrite(A, old(|steps|))
    {
      BWhile();
      var stopped := *;
      ok := !(mayStop && stopped);
      if ok {
        WriteDownA();
      } else {
        LoseA();
      }
    }

    /** A is stopped with an unwritten effect. */
    method LoseA()
      requires Valid() && mayStop && w.memA != Idle && !w.memA.OpenSigned?
      modifies this`w, this`worlds, this`steps, this`excuse
      ensures Valid() && old(worlds) <= worlds && old(steps) <= steps
      ensures w == old(w).(memA := Idle) && LostWrite(A, old(|steps|))
    {
      Do(ByA(AStop));
      excuse := Excuse(|steps| - 1, WriteLost);
      assert worlds[|steps| - 1] == old(w);
    }

    method WriteDownB()
      requires Valid() && w.memB != Idle && !w.memB.ClaimSigned?
      modifies this`w, this`worlds, this`steps
      ensures Valid() && old(worlds) <= worlds && old(steps) <= steps
      ensures w == old(w).(b := WrittenB(old(w.b), old(w.memB)), memB := Idle)
    {
      Do(ByB(WriteB(w.memB)));
    }

    method PersistB() returns (ok: bool)
      requires Valid() && w.memB != Idle && !w.memB.ClaimSigned?
      modifies this
      ensures Valid() && old(worlds) <= worlds && old(steps) <= steps
      ensures w.memB == Idle && w.rounds == old(w.rounds)
      ensures w.b == if ok then WrittenB(old(w.b), old(w.memB)) else old(w.b)
      ensures old(w.account).Spent? ==> w.account == old(w.account)
      ensures |w.outputs| == |old(w.outputs)| && (SweptBy(old(w), B) ==> SweptBy(w, B))
      ensures !ok ==> LostWrite(B, old(|steps|))
      ensures old(looked) <= looked && waited == old(waited)
    {
      AWhile();
      var stopped := *;
      ok := !(mayStop && stopped);
      ghost var before := w;
      if ok {
        WriteDownB();
      } else {
        Do(ByB(BStop));
        excuse := Excuse(|steps| - 1, WriteLost);
        assert worlds[|steps| - 1] == before;
      }
      assert w.outputs == before.outputs;
    }

    // ---------- A ----------

    /** A stopped short for a reason found in the history since `from`: its own lost write, or
        what it met where it stood.  Only a sweep may stop with its lock `unseen`. */
    ghost predicate ExcusedA(from: nat, unseen: bool)
      reads this
    {
      LostWrite(A, from) ||
      (from <= excuse.at <= |steps| < |worlds| &&
       var met := worlds[excuse.at];
       match excuse.why
       case AccountMoved => met.a.open.Some? && met.a.refund.Some? && met.account != Opened(met.a.open.value)
       case LockUnseen => unseen && met.a.x.Some? && !met.a.sweep
       case NothingToSweep => met.a.x.Some? && !met.a.sweep && (SweptBy(met, A) || met.a.x != Some(Share(B)))
       case _ => false)
    }

    /** It is what the driver found the last time it let the other go on. */
    ghost predicate AfterWait(met: World)
      reads this
    {
      looked != [] && looked[|looked| - 1] == met
    }

    /** A got no further than the refund, called in the world `before`: it lost a write, or the node
        refused the open it had co-signed, or, idle, it met nobody for the round it was at and held
        none of that kind. */
    ghost predicate NoRefundYet(from: nat, before: World)
      reads this
    {
      LostWrite(A, from) ||
      (from <= excuse.at <= |steps| < |worlds| &&
       var met := worlds[excuse.at];
       match excuse.why
       case NoFunding =>
         && AfterWait(met) && met.memA == Idle && met.a.fund && met.a.open == None
         && (forall i :: !EnabledRound(c, met, RoundOpen(i)))
         && w.rounds == before.rounds
       case NoCosigner =>
         && AfterWait(met) && met.memA == Idle
         && met.a.open.Some? && met.a.refund == None && !EnabledRound(c, met, RoundRefund)
         && w.rounds == before.rounds + OpensA(before)
       case AlreadyOpened => met.memA.OpenSigned? && met.account != Unopened && w.rounds == before.rounds + 1
       case _ => false)
    }

    /** What A's driver reports is so. */
    ghost predicate HonestA(out: Outcome, from: nat, unseen: bool)
      reads this
    {
      && out in {Done, Refunded, Stopped}
      && (out == Done ==> w.a.sweep && SweptBy(w, A) && ClaimLanded(c, w))
      && (out == Refunded ==> w.a.refunded && RefundLanded(c, w))
      && (out == Stopped ==> ExcusedA(from, unseen))
    }

    /** A refunds only with cause, found in what it met and in its looks since `from`: no buried
        lock came in sight, the gate refused, the claim round was not to be had and none was held
        (`rounds` counts those before it), or the account had no successor up to the deadline. */
    ghost predicate Justified(m: Meets, from: nat, rounds: nat)
      reads this
    {
      match cause.reason
      case LockNeverSeen => from <= cause.since && NeverSeen(m.lockLooks, looked, cause.since, cause.used)
      case GateRefused => !m.certified
      case CosignUnavailable =>
        m.certified && (m.reply != Complete || (!EnabledRound(c, cause.at, RoundClaim) && cause.at.rounds == rounds))
      case ClaimTimeout =>
        from <= cause.since && cause.used == m.patience + 1 && Unclaimed(looked, cause.since, cause.since + cause.used)
      case Manual => false
    }

    /** `broadcastRefund`: the chain takes it only while the open block is the frontier.  Either
        way the account has its successor then. */
    method BroadcastRefund(reason: RefundReason, ghost since: nat, ghost used: nat) returns (out: Outcome)
      requires Valid() && w.memA == Idle && w.a.open.Some? && w.a.refund.Some? && RefundGuard(w, reason)
      modifies this
      ensures Valid() && old(|steps|) <= |steps| && old(looked) <= looked
      ensures w.memA == Idle && HonestA(out, old(|steps|), false) && out != Done
      ensures w.a == if out == Refunded then old(w.a).(refunded := true) else old(w.a)
      ensures w.account.Spent? && (old(w.account).Spent? ==> w.account == old(w.account))
      ensures old(w.account) == Opened(old(w.a.open.value)) ==>
                RefundLanded(c, w) && (out == Stopped ==> LostWrite(A, old(|steps|)))
      ensures cause == Cause(reason, old(w), since, used) && w.rounds == old(w.rounds)
    {
      cause := Cause(reason, w, since, used);
      if w.account != Opened(w.a.open.value) {
        excuse := Excuse(|steps|, AccountMoved);  // rejected by the node
        return Stopped;
      }
      Do(ByA(ARefund(reason)));
      var ok := PersistA();
      out := if ok then Refunded else Stopped;
    }

    method FundAndOpen() returns (ok: bool)
      requires Valid() && w.memA == Idle
      modifies this
      ensures Valid() && old(|steps|) <= |steps| && old(looked) <= looked
      ensures w.memA == Idle && w.a.presigned == old(w.a.presigned)
      ensures if ok then w.a.open.Some? else w.a.open == None && NoRefundYet(old(|steps|), old(w))
      ensures ok ==> w.rounds == old(w.rounds) + OpensA(old(w)) && w.a.refund == old(w.a.refund)
      ensures w.fundings == old(w.fundings) + if old(w.a.fund) then 0 else 1
      ensures RefundLanded(c, w) ==> RefundLanded(c, old(w))
      ensures w.rounds <= old(w.rounds) + OpensA(old(w))
    {
      if !w.a.fund {
        ok := Fund();
        if !ok { return; }
      }
      ok := OpenAccount();
    }

    method Fund() returns (ok: bool)
      requires Valid() && w.memA == Idle && !w.a.fund
      modifies this
      ensures Valid() && old(|steps|) <= |steps| && old(looked) <= looked && w.memA == Idle
      ensures w.a == if ok then old(w.a).(fund := true) else old(w.a)
      ensures !ok ==> LostWrite(A, old(|steps|))
      ensures w.fundings == old(w.fundings) + 1 && w.rounds == old(w.rounds)
      ensures RefundLanded(c, w) ==> RefundLanded(c, old(w))
    {
      Do(ByA(AFund));
      ok := PersistA();
    }

    method OpenAccount() returns (ok: bool)
      requires Valid() && w.memA == Idle && w.a.fund
      modifies this
      ensures Valid() && old(|steps|) <= |steps| && old(looked) <= looked
      ensures w.memA == Idle && w.a.presigned == old(w.a.presigned) && w.fundings == old(w.fundings)
      ensures if ok then w.a.open.Some? else w.a.open == None && NoRefundYet(old(|steps|), old(w))
      ensures ok ==> w.rounds == old(w.rounds) + OpensA(old(w)) && w.a.refund == old(w.a.refund)
      ensures RefundLanded(c, w) ==> RefundLanded(c, old(w))
      ensures w.rounds <= old(w.rounds) + OpensA(old(w))
    {
      ghost var before := w;
      BWhile();
      if w.a.open.Some? { return true; }
      if !exists i :: 0 <= i < w.fundings && FundingFor(c, w, i) {
        excuse := Excuse(|steps|, NoFunding);
        assert forall i :: EnabledRound(c, w, RoundOpen(i)) ==> FundingFor(c, w, i);
        return false;
      }
      var i :| 0 <= i < w.fundings && FundingFor(c, w, i);
      Do(Wire(RoundOpen(i)));
      BWhile();
      ok := BroadcastOpen(before);
    }

    method BroadcastOpen(ghost before: World) returns (ok: bool)
      requires Valid() && w.memA.OpenSigned? && w.rounds == before.rounds + 1
      modifies this
      ensures Valid() && old(|steps|) <= |steps| && old(looked) <= looked
      ensures w.memA == Idle && w.a.presigned == old(w.a.presigned) && w.fundings == old(w.fundings)
      ensures if ok then w.a.open.Some? else w.a.open == None && NoRefundYet(old(|steps|), before)
      ensures w.rounds == old(w.rounds) && w.a.refund == old(w.a.refund)
      ensures RefundLanded(c, w) ==> RefundLanded(c, old(w))
    {
      if w.account != Unopened {
        ghost var at, met := |steps|, w;
        Do(ByA(AStop));
        excuse := Excuse(at, AlreadyOpened);
        assert worlds[at] == met;
        return false;
      }
      Do(ByA(AOpenBroadcast));
      ok := PersistA();
    }

    method SecureRefund() returns (ok: bool)
      requires Valid() && w.memA == Idle && w.a.open.Some?
      modifies this
      ensures Valid() && old(|steps|) <= |steps| && old(looked) <= looked
      ensures w.memA == Idle && w.a.presigned == old(w.a.presigned)
      ensures if ok then w.a.open.Some? && w.a.refund.Some? else w.a.refund == None && NoRefundYet(old(|steps|), old(w))
      ensures ok ==> w.rounds == old(w.rounds) + RefundsA(old(w))
      ensures !ok ==> excuse.why in {WriteLost, NoCosigner}
      ensures RefundLanded(c, w) ==> RefundLanded(c, old(w))
      ensures w.rounds <= old(w.rounds) + RefundsA(old(w))
    {
      if w.a.refund == None {
        BWhile();
        if !EnabledRound(c, w, RoundRefund) {
          excuse := Excuse(|steps|, NoCosigner);
          return false;
        }
        Do(Wire(RoundRefund));
        ok := PersistA();
        return;
      }
      ok := true;
    }

    /** `waitJointXmrLock` as A waits: a lock once visible stays in the cache, and from then on only
        its depth counts; the gate gives up only with nothing visible.  A lock that is buried
        from the start is found exactly when a look sees it in time. */
    method WaitForLock(looks: seq<LockWait.Look>) returns (hit: Option<nat>, ghost used: nat)
      requires Valid()
      modifies this`w, this`worlds, this`steps, this`looked
      ensures Valid() && old(worlds) <= worlds && old(steps) <= steps && old(looked) <= looked
      ensures Meanwhile(c, old(w), w)
      ensures hit.Some? ==> hit.value < |w.outputs| && w.outputs[hit.value].mature
      ensures hit == None ==> NeverSeen(looks, looked, old(|looked|), used)
      ensures LockBuried(old(w)) ==> (hit.Some? <==> LockWait.SeesInTime(looks))
    {
      ghost var since := |looked|;
      var visible := false;
      for i := 0 to |looks|
        invariant Valid() && old(worlds) <= worlds && old(steps) <= steps && old(looked) <= looked
        invariant Meanwhile(c, old(w), w) && |looked| == since + i && Watched(looks, looked, since, visible)
        invariant LockBuried(old(w)) ==> AllBuriedAt(looked, since, since + i)
      {
        ghost var met, cached := looked, visible;
        BWhile();
        visible := NowVisible(looks[i], w, visible);
        hit := if visible then FindBuried(w) else None;
        if hit.Some? {
          if LockBuried(old(w)) { FindsInTime(looks, met, w, since, cached); }
          return hit, i + 1;
        }
        if !visible && looks[i].refused {
          GivesUp(looks, met, w, since, cached);
          if LockBuried(old(w)) { NotInTime(looks, looked, since, i + 1); }
          return None, i + 1;
        }
        GoesOn(looks, met, w, since, cached);
      }
      if LockBuried(old(w)) { NotInTime(looks, looked, since, |looks|); }
      return None, |looks|;
    }

    /** Wait for the lock; refund when it never shows.  None means the lock is seen, and it
        is all that was written; otherwise A has its XNO back. */
    method AwaitLock(m: Meets) returns (out: Option<Outcome>)
      requires Valid() && w.memA == Idle && w.a.open.Some? && w.a.refund.Some?
      modifies this
      ensures Valid() && old(|steps|) <= |steps| && old(looked) <= looked && w.memA == Idle
      ensures out == None ==> w.a.lockseen.Some? && w.a == old(w.a).(lockseen := w.a.lockseen)
      ensures w.rounds == old(w.rounds)
      ensures out == None ==> (RefundLanded(c, w) ==> RefundLanded(c, old(w)))
      ensures out.Some? ==>
                && HonestA(out.value, old(|steps|), false) && out.value != Done && RefundLanded(c, w)
                && w.a == (if out.value == Refunded then old(w.a).(refunded := true) else old(w.a))
                && Justified(m, old(|looked|), old(w.rounds))
    {
      if w.a.lockseen.Some? { return None; }
      ghost var since := |looked|;
      ghost var used;
      var hit;
      hit, used := WaitForLock(m.lockLooks);
      if hit.Some? {
        Do(ByA(ALockSeen(hit.value)));
        return None;
      }
      ghost var met := looked;
      var r := BroadcastRefund(LockNeverSeen, since, used);
      StillNeverSeen(m.lockLooks, met, looked, since, used);
      out := Some(r);
    }

    /** The gate and the claim round; either failing means refund.  None means pre-signed, and
        nothing is pre-signed that the gate did not certify; otherwise the account has its
        successor, or the pre-signature was lost before it was written. */
    method CommitClaim(m: Meets) returns (out: Option<Outcome>)
      requires Valid() && w.memA == Idle && w.a.open.Some? && w.a.refund.Some? && w.a.lockseen.Some?
      modifies this
      ensures Valid() && old(|steps|) <= |steps| && old(looked) <= looked && w.memA == Idle
      ensures out == None ==> w.a.presigned.Some? && w.a == old(w.a).(presigned := w.a.presigned)
      ensures out == None ==> (RefundLanded(c, w) ==> RefundLanded(c, old(w)))
      ensures out.Some? ==>
                && HonestA(out.value, old(|steps|), false) && out.value != Done && w.a.presigned == None
                && w.a == (if out.value == Refunded then old(w.a).(refunded := true) else old(w.a))
                && (w.account.Spent? || (out.value == Stopped && LostWrite(A, old(|steps|))))
                && (RefundLanded(c, w) && !RefundLanded(c, old(w)) ==> Justified(m, old(|looked|), old(w.rounds)))
      ensures !m.certified ==> w.a.presigned == old(w.a.presigned) && (out.Some? ==> w.account.Spent?)
      ensures w.rounds <= old(w.rounds) + ClaimsA(old(w), m.certified)
    {
      if w.a.presigned.Some? { return None; }
      BWhile();
      if !m.certified {
        var r := BroadcastRefund(GateRefused, 0, 0);
        return Some(r);
      }
      out := SignClaim(m);
    }

    /** The claim round: pre-signed and written down, or the refund instead. */
    method SignClaim(m: Meets) returns (out: Option<Outcome>)
      requires Valid() && w.memA == Idle && w.a.open.Some? && w.a.refund.Some? && w.a.lockseen.Some?
      requires w.a.presigned == None && m.certified
      modifies this
      ensures Valid() && old(|steps|) <= |steps| && old(looked) <= looked && w.memA == Idle
      ensures out == None ==> w.a.presigned.Some? && w.a == old(w.a).(presigned := w.a.presigned)
      ensures out == None ==> (RefundLanded(c, w) ==> RefundLanded(c, old(w)))
      ensures out.Some? ==>
                && HonestA(out.value, old(|steps|), false) && out.value != Done && w.a.presigned == None
                && w.a == (if out.value == Refunded then old(w.a).(refunded := true) else old(w.a))
                && (w.account.Spent? || (out.value == Stopped && LostWrite(A, old(|steps|))))
                && (RefundLanded(c, w) && !RefundLanded(c, old(w)) ==> Justified(m, old(|looked|), old(w.rounds)))
      ensures w.rounds <= old(w.rounds) + 1
    {
      if m.reply != Complete || !EnabledRound(c, w, RoundClaim) {
        if m.reply == Halfway && EnabledRound(c, w, RoundClaim) {
          LoseClaimRound();
        }
        var r := BroadcastRefund(CosignUnavailable, 0, 0);
        return Some(r);
      }
      var ok := PresignClaim();
      out := if ok then None else Some(Stopped);
    }

    /** The round finishes on B's side alone, and B goes on. */
    method LoseClaimRound()
      requires Valid() && EnabledRound(c, w, RoundClaim)
      modifies this
      ensures Valid() && old(|steps|) <= |steps| && old(looked) <= looked
      ensures w.memA == Idle && w.a == old(w.a) && (RefundLanded(c, w) ==> RefundLanded(c, old(w)))
      ensures w.rounds == old(w.rounds) + 1
    {
      Do(Wire(RoundClaim));
      Do(ByA(AStop));
      BWhile();
    }

    method PresignClaim() returns (ok: bool)
      requires Valid() && EnabledRound(c, w, RoundClaim)
      modifies this
      ensures Valid() && old(|steps|) <= |steps| && old(looked) <= looked && w.memA == Idle
      ensures w.a == if ok then old(w.a).(presigned := w.a.presigned) else old(w.a)
      ensures if ok then w.a.presigned.Some? else w.a.presigned == None && LostWrite(A, old(|steps|))
      ensures RefundLanded(c, w) ==> RefundLanded(c, old(w))
      ensures w.rounds == old(w.rounds) + 1
    {
      Do(Wire(RoundClaim));
      ok := PersistA();
    }

    /** A moved account is A's refund, or a claim A has pre-signed no record of. */
    lemma MovedUnsigned()
      requires Valid() && w.account.Spent? && w.a.presigned == None
      ensures PaidA(c, w) || ClaimUnrecorded(c, w)
    {
    }

    /** Wait for B's claim and extract x from it; past the deadline take the refund, and when
        the claim was there first, look again.  The wait always ends: with x, or with A's XNO
        back. */
    method AwaitClaim(m: Meets) returns (out: Option<Outcome>)
      requires Valid() && w.memA == Idle && w.a.open.Some? && w.a.refund.Some? && w.a.presigned.Some?
      modifies this
      ensures Valid() && old(|steps|) <= |steps| && old(looked) <= looked
      ensures w.memA == Idle && w.a.presigned == old(w.a.presigned) && w.a.refund.Some?
      ensures out == None ==> w.a.x.Some?
      ensures out.Some? ==>
                && HonestA(out.value, old(|steps|), false) && out.value != Done && RefundLanded(c, w)
                && (!RefundLanded(c, old(w)) ==> Justified(m, old(|looked|), 0) && cause.reason == ClaimTimeout)
      ensures w.rounds == old(w.rounds)
    {
      if w.a.x.Some? { return None; }
      ghost var since := |looked|;
      var moved := WatchAccount(m.patience + 1);
      if moved {
        out := ReadSuccessor();  // also when the refund would race the claim
      } else {
        out := TimeOut(m, since);
      }
    }

    /** Look at the account up to `looks` times, until it has its successor. */
    method WatchAccount(looks: nat) returns (moved: bool)
      requires Valid() && w.memA == Idle && w.a.open.Some?
      modifies this`w, this`worlds, this`steps, this`looked
      ensures Valid() && old(worlds) <= worlds && old(steps) <= steps && old(looked) <= looked
      ensures Meanwhile(c, old(w), w) && (moved ==> w.account != Opened(w.a.open.value))
      ensures !moved ==> Unclaimed(looked, old(|looked|), old(|looked|) + looks)
      ensures !moved && looks > 0 ==> w.account == Opened(w.a.open.value)
    {
      ghost var since := |looked|;
      for round := 0 to looks
        invariant Valid() && old(worlds) <= worlds && old(steps) <= steps && old(looked) <= looked
        invariant Meanwhile(c, old(w), w) && |looked| == since + round && Unclaimed(looked, since, since + round)
        invariant round > 0 ==> w.account == Opened(w.a.open.value)
      {
        BWhile();
        if w.account != Opened(w.a.open.value) { return true; }
      }
      moved := false;
    }

    method TimeOut(m: Meets, ghost since: nat) returns (out: Option<Outcome>)
      requires Valid() && w.memA == Idle && w.a.open.Some? && w.a.refund.Some? && RefundGuard(w, ClaimTimeout)
      requires w.account == Opened(w.a.open.value) && Unclaimed(looked, since, since + m.patience + 1)
      modifies this
      ensures Valid() && old(|steps|) <= |steps| && old(looked) <= looked && w.memA == Idle
      ensures w.a.presigned == old(w.a.presigned) && w.a.refund == old(w.a.refund)
      ensures out.Some? && HonestA(out.value, old(|steps|), false) && out.value != Done && RefundLanded(c, w)
      ensures Justified(m, since, 0) && cause.reason == ClaimTimeout
      ensures w.rounds == old(w.rounds)
    {
      var r := BroadcastRefund(ClaimTimeout, since, m.patience + 1);
      out := Some(r);
    }

    /** The frontier has moved: it is A's own refund, or B's claim with x in it. */
    method ReadSuccessor() returns (out: Option<Outcome>)
      requires Valid() && w.memA == Idle && w.a.open.Some? && w.a.refund.Some? && w.a.presigned.Some? && w.a.x == None
      requires w.account != Opened(w.a.open.value)
      modifies this`w, this`worlds, this`steps
      ensures Valid() && old(|steps|) <= |steps| && w.memA == Idle && w.account == old(w.account)
      ensures out == Some(Refunded) <==> RefundLanded(c, w)
      ensures out == Some(Refunded) ==> w.a == old(w.a).(refunded := true)
      ensures out != Some(Refunded) ==> out == None && ClaimLanded(c, w)
      ensures out == None ==> w.a == old(w.a).(x := Some(Extract(old(w.a.presigned.value), w.account.sig)))
      ensures w.rounds == old(w.rounds)
    {
      if w.account.sig.pre.block.dest == w.a.refund.value.block.dest {
        Do(ByA(AObserveRefund));
        return Some(Refunded);
      }
      Do(ByA(AExtract));
      out := None;
    }

    /** Sweep the lock with the secret extracted.  The wait for it still has the price gate on and
        no deadline: found in time, A ends paid, unless what it extracted is not B's share because
        the claim is of a round it has no record of; not found in time, A ends with x and without
        the Monero. */
    method Sweep(looks: seq<LockWait.Look>) returns (out: Outcome)
      requires Valid() && w.memA == Idle && w.a.x.Some?
      modifies this
      ensures Valid() && old(|steps|) <= |steps| && old(looked) <= looked && w.account == old(w.account)
      ensures w.memA == Idle && HonestA(out, old(|steps|), !LockWait.SeesInTime(looks)) && out != Refunded
      ensures w.a.presigned == old(w.a.presigned) && w.a.refund == old(w.a.refund) && w.a.x == old(w.a.x)
      ensures PaidA(c, w) || ClaimUnrecorded(c, w) || (out == Stopped && !LockWait.SeesInTime(looks))
      ensures w.a.x == Some(Share(B)) && !old(w.a.sweep) && !SweptBy(old(w), A) ==>
                (SweptBy(w, A) <==> LockWait.SeesInTime(looks))
      ensures w.rounds == old(w.rounds)
    {
      if w.a.sweep { return Done; }
      assert LockBuried(w) by { assert w.outputs[w.a.lockseen.value].mature; }
      var hit;
      ghost var used;
      hit, used := WaitForLock(looks);
      if hit == None {
        excuse := Excuse(|steps|, LockUnseen);
        return Stopped;
      }
      if !JointSecret(Share(A), w.a.x.value) {
        ExtractedFromRecord(c, w);
        excuse := Excuse(|steps|, NothingToSweep);
        return Stopped;
      }
      out := TakeLock(hit.value);
    }

    /** Build and broadcast the sweep; a lock that is spent already was taken by A before. */
    method TakeLock(k: nat) returns (out: Outcome)
      requires Valid() && w.memA == Idle && w.a.x == Some(Share(B)) && !w.a.sweep
      requires k < |w.outputs| && w.outputs[k].mature
      modifies this
      ensures Valid() && old(|steps|) <= |steps| && old(looked) <= looked && w.memA == Idle
      ensures w.a == if out == Done then old(w.a).(sweep := true) else old(w.a)
      ensures w.account == old(w.account) && SweptBy(w, A) && ClaimLanded(c, w)
      ensures out in {Done, Stopped} && HonestA(out, old(|steps|), false)
      ensures w.rounds == old(w.rounds)
    {
      if w.outputs[k].spentBy.Some? {
        OnlyPartiesSpend(w, k);
        excuse := Excuse(|steps|, NothingToSweep);
        return Stopped;
      }
      SpendsStep(c, w, ByA(ASweep(k)), A);
      Do(ByA(ASweep(k)));
      var ok := PersistA();
      out := if ok then Done else Stopped;
    }

    /** A's side from its store's markers on: fund, open, hold the refund, see the lock,
        pre-sign the claim, then extract x and sweep; or refund on the way.

        It reports what is so, stops short only for a reason found in the history, commits to
        no claim the gate did not certify, and refunds only with cause.  PROGRESS: holding the
        refund, unless it lost a store write it ends paid, with two exceptions: a claim landed
        from a round it has no record of, and a sweep that never saw the lock in time. */
    method RunA(m: Meets) returns (out: Outcome)
      requires Valid() && w.memA == Idle
      modifies this
      ensures Valid() && old(|steps|) <= |steps| && old(looked) <= looked
      ensures w.memA == Idle
      ensures HonestA(out, old(|steps|), !LockWait.SeesInTime(m.sweepLooks))
           || (out == Stopped && w.a.refund == None && NoRefundYet(old(|steps|), old(w)))
      ensures w.a.refund.Some? && !(out == Stopped && LostWrite(A, old(|steps|))) ==> EndsPaid(out, m)
      ensures !m.certified ==> w.a.presigned == old(w.a.presigned)
      ensures RefundLanded(c, w) && !RefundLanded(c, old(w)) ==>
                Justified(m, old(|looked|), old(w.rounds) + OpensA(old(w)) + RefundsA(old(w)))
      ensures w.rounds <= old(w.rounds) + OpensA(old(w)) + RefundsA(old(w)) + ClaimsA(old(w), m.certified)
    {
      var ok := FundAndOpen();
      if !ok { return Stopped; }
      ok := SecureRefund();
      if !ok { return Stopped; }
      out := FromRefund(m);
    }

    /** A is paid; or the claim that landed is not the one it has on record; or its sweep, holding
        x, never saw the lock in time. */
    ghost predicate EndsPaid(out: Outcome, m: Meets)
      reads this
    {
      || PaidA(c, w) || ClaimUnrecorded(c, w)
      || (out == Stopped && w.a.x.Some? && !LockWait.SeesInTime(m.sweepLooks))
    }

    /** The rest of A's side, once it holds the refund. */
    method FromRefund(m: Meets) returns (out: Outcome)
      requires Valid() && w.memA == Idle && w.a.open.Some? && w.a.refund.Some?
      modifies this
      ensures Valid() && old(|steps|) <= |steps| && old(looked) <= looked
      ensures w.memA == Idle && HonestA(out, old(|steps|), !LockWait.SeesInTime(m.sweepLooks))
      ensures !(out == Stopped && LostWrite(A, old(|steps|))) ==> EndsPaid(out, m)
      ensures !m.certified ==> w.a.presigned == old(w.a.presigned)
      ensures RefundLanded(c, w) && !RefundLanded(c, old(w)) ==> Justified(m, old(|looked|), old(w.rounds))
      ensures w.rounds <= old(w.rounds) + ClaimsA(old(w), m.certified)
    {
      var early := AwaitLock(m);
      if early.Some? { return early.value; }
      out := FromLock(m);
    }

    /** The rest, once it has seen the lock. */
    method FromLock(m: Meets) returns (out: Outcome)
      requires Valid() && w.memA == Idle && w.a.open.Some? && w.a.refund.Some? && w.a.lockseen.Some?
      modifies this
      ensures Valid() && old(|steps|) <= |steps| && old(looked) <= looked
      ensures w.memA == Idle && HonestA(out, old(|steps|), !LockWait.SeesInTime(m.sweepLooks))
      ensures !(out == Stopped && LostWrite(A, old(|steps|))) ==> EndsPaid(out, m)
      ensures !m.certified ==> w.a.presigned == old(w.a.presigned)
      ensures RefundLanded(c, w) && !RefundLanded(c, old(w)) ==> Justified(m, old(|looked|), old(w.rounds))
      ensures w.rounds <= old(w.rounds) + ClaimsA(old(w), m.certified)
    {
      var early := CommitClaim(m);
      if early.Some? {
        if w.account.Spent? { MovedUnsigned(); }
        return early.value;
      }
      out := FromClaim(m);
    }

    /** The last part, once the claim is pre-signed. */
    method FromClaim(m: Meets) returns (out: Outcome)
      requires Valid() && w.memA == Idle && w.a.open.Some? && w.a.refund.Some? && w.a.presigned.Some?
      modifies this
      ensures Valid() && old(|steps|) <= |steps| && old(looked) <= looked
      ensures w.memA == Idle && HonestA(out, old(|steps|), !LockWait.SeesInTime(m.sweepLooks))
      ensures EndsPaid(out, m) && w.a.presigned == old(w.a.presigned)
      ensures RefundLanded(c, w) && !RefundLanded(c, old(w)) ==>
                Justified(m, old(|looked|), 0) && cause.reason == ClaimTimeout
      ensures w.rounds == old(w.rounds)
    {
      var early := AwaitClaim(m);
      if early.Some? { return early.value; }
      out := Sweep(m.sweepLooks);
    }

    /** `refundNow`: A's manual way out, at any time and without B. */
    method RefundNow() returns (out: Outcome)
      requires Valid() && w.memA == Idle
      modifies this
      ensures Valid() && old(|steps|) <= |steps| && w.memA == Idle
      ensures out == Refunded ==> w.a.refunded && RefundLanded(c, w)
      ensures out in {Refunded, Stopped}
      ensures out == Stopped && !LostWrite(A, old(|steps|)) ==>
                || old(w.a.x).Some? || old(w.a.sweep) || old(w.a.open) == None || old(w.a.refund) == None
                || old(w.account) != Opened(old(w.a.open.value))
      ensures old(w.a.refund).Some? && old(w.account) == Opened(old(w.a.open.value)) ==> RefundLanded(c, w)
    {
      if w.a.refunded { return Refunded; }
      if w.a.x.Some? || w.a.sweep || w.a.open == None || w.a.refund == None { return Stopped; }
      out := BroadcastRefund(Manual, 0, 0);
    }

    // ---------- B ----------

    predicate CanTakeBack()
      reads this
    {
      Takeable(w)
    }

    /** B stopped short for a reason found in the history since `from`: its own lost write; the claim
        round not to be had, B idle and none held (`rounds` counts those before it); or the
        account's successor met with the claim in hand. */
    ghost predicate ExcusedB(from: nat, rounds: nat)
      reads this
    {
      LostWrite(B, from) ||
      (from <= excuse.at <= |steps| < |worlds| &&
       var met := worlds[excuse.at];
       match excuse.why
       case NoClaimRound =>
         && met.memB == Idle && met.b.refund.Some? && met.b.lock != NoLock && !met.b.claim
         && !EnabledRound(c, met, RoundClaim) && w.rounds == rounds
       case AccountMoved => met.memB.ClaimSigned? && met.account != Opened(met.memB.pre.block.previous)
       case _ => false)
    }

    /** B got no further than the refund, called in the world `before`. */
    ghost predicate NoLockYet(from: nat, before: World)
      reads this
    {
      LostWrite(B, from) ||
      (from <= excuse.at <= |steps| < |worlds| &&
       var met := worlds[excuse.at];
       match excuse.why
       case NoFunding =>
         && AfterWait(met) && met.memB == Idle && met.b.open == None
         && (forall i :: !EnabledRound(c, met, RoundOpen(i)))
         && w.rounds == before.rounds
       case NoCosigner =>
         && AfterWait(met) && met.memB == Idle
         && met.b.open.Some? && met.b.refund == None && !EnabledRound(c, met, RoundRefund)
         && w.rounds == before.rounds + OpensB(before)
       case _ => false)
    }

    predicate RecoveredIfSeen(sees: bool)
      reads this
    {
      (PaidB(c, w) ==> AllBuried(w)) && (sees && AllBuried(w) ==> PaidB(c, w))
    }

    /** What B's driver reports is so.  `Recovered` is worth all it says only when the lock is
        buried, and then whenever the hunt sees it; any other is closed out over. */
    ghost predicate HonestB(out: Outcome, from: nat, sees: bool, rounds: nat)
      reads this
    {
      && out in {Done, Declined, Recovered, Stopped}
      && (out == Done ==> w.b.claim && ClaimLanded(c, w))
      && (out == Recovered ==>
            w.b.recovered && RefundLanded(c, w) && (Kept(c, w) ==> RecoveredIfSeen(sees)))
      && (out == Declined ==> w.b.declined && w.b.lock == NoLock && !ClaimLanded(c, w))
      && (out == Stopped ==> ExcusedB(from, rounds))
    }

    /** Nothing is locked, so no claim can have landed either. */
    method Decline()
      requires Valid() && w.memB == Idle && w.b.lock == NoLock
      modifies this`w, this`worlds, this`steps
      ensures Valid() && old(|steps|) <= |steps|
      ensures w == old(w).(b := old(w.b).(declined := true)) && !ClaimLanded(c, w)
    {
      Do(ByB(BDecline));
    }

    /** `coOpen` on B's side.  None means B has the open in its store. */
    method CoSignOpen(certified: bool) returns (out: Option<Outcome>)
      requires Valid() && w.memB == Idle
      modifies this
      ensures Valid() && old(|steps|) <= |steps| && (old(w.account).Spent? ==> w.account == old(w.account))
      ensures w.memB == Idle && |w.outputs| == |old(w.outputs)|
      ensures w.b.lock == old(w.b.lock) && w.b.claim == old(w.b.claim) && w.b.refund == old(w.b.refund)
      ensures out == None ==> w.b.open.Some?
      ensures out.Some? ==> w.b.open == None && out.value in {Declined, Stopped}
      ensures out == Some(Declined) ==> w.b.declined && w.b.lock == NoLock && !ClaimLanded(c, w) && !certified
      ensures out == Some(Stopped) ==> NoLockYet(old(|steps|), old(w))
      ensures out == None ==> w.rounds == old(w.rounds) + OpensB(old(w))
      ensures w.rounds <= old(w.rounds) + OpensB(old(w))
      ensures old(looked) <= looked
    {
      if w.b.open.Some? { return None; }
      AWhile();
      if !certified {
        Decline();
        return Some(Declined);
      }
      var ok := JoinOpen();
      out := if ok then None else Some(Stopped);
    }

    method JoinOpen() returns (ok: bool)
      requires Valid() && w.memB == Idle && w.b.open == None && AfterWait(w)
      modifies this
      ensures Valid() && old(|steps|) <= |steps| && (old(w.account).Spent? ==> w.account == old(w.account))
      ensures w.memB == Idle && |w.outputs| == |old(w.outputs)|
      ensures w.b.lock == old(w.b.lock) && w.b.claim == old(w.b.claim) && w.b.refund == old(w.b.refund)
      ensures if ok then w.b.open.Some? else w.b.open == None && NoLockYet(old(|steps|), old(w))
      ensures w.rounds <= old(w.rounds) + 1 && (ok ==> w.rounds == old(w.rounds) + 1)
      ensures old(looked) <= looked
    {
      if !exists i :: 0 <= i < w.fundings && FundingFor(c, w, i) {
        excuse := Excuse(|steps|, NoFunding);
        assert forall i :: EnabledRound(c, w, RoundOpen(i)) ==> FundingFor(c, w, i);
        return false;
      }
      var i :| 0 <= i < w.fundings && FundingFor(c, w, i);
      Do(Wire(RoundOpen(i)));
      ok := PersistB();
    }

    /** `coSignRefundRole` on B's side. */
    method CoSignRefund() returns (ok: bool)
      requires Valid() && w.memB == Idle && w.b.open.Some?
      modifies this
      ensures Valid() && old(|steps|) <= |steps| && (old(w.account).Spent? ==> w.account == old(w.account))
      ensures w.memB == Idle && |w.outputs| == |old(w.outputs)|
      ensures w.b.lock == old(w.b.lock) && w.b.claim == old(w.b.claim)
      ensures if ok then w.b.open.Some? && w.b.refund.Some? else w.b.refund == None && NoLockYet(old(|steps|), old(w))
      ensures ok ==> w.rounds == old(w.rounds) + RefundsB(old(w))
      ensures !ok ==> excuse.why in {WriteLost, NoCosigner} && w.rounds <= old(w.rounds) + 1
      ensures old(w.b.refund).Some? ==> ok
      ensures old(looked) <= looked
    {
      if w.b.refund.Some? { return true; }
      AWhile();
      if !EnabledRound(c, w, RoundRefund) {
        excuse := Excuse(|steps|, NoCosigner);
        return false;
      }
      Do(Wire(RoundRefund));
      ok := PersistB();
    }

    /** Lock the Monero, unless the account has moved or the market gate refuses: without the
        gate's consent no output is added, and never more than one. */
    method LockMonero(certified: bool, readable: bool) returns (out: Option<Outcome>)
      requires Valid() && w.memB == Idle && w.b.open.Some? && w.b.refund.Some?
      modifies this
      ensures Valid() && old(|steps|) <= |steps| && (old(w.account).Spent? ==> w.account == old(w.account))
      ensures w.memB == Idle && w.b.claim == old(w.b.claim) && w.b.refund.Some? && w.rounds == old(w.rounds)
      ensures out == None ==> w.b.open.Some? && w.b.lock != NoLock
      ensures out == Some(Declined) ==> w.b.declined && w.b.lock == NoLock && !ClaimLanded(c, w) && !certified
      ensures out.Some? && out.value != Declined ==> out == Some(Stopped) && LostWrite(B, old(|steps|))
      ensures readable && old(w.account).Spent? ==> out == None && |w.outputs| == |old(w.outputs)|
      ensures |w.outputs| == |old(w.outputs)|
           || (certified && old(w.b.lock) == NoLock && |w.outputs| == |old(w.outputs)| + 1)
      ensures old(looked) <= looked
    {
      if w.b.lock != NoLock { return None; }
      AWhile();
      if readable && Moved(w, w.b.open.value) {
        Do(ByB(BSkipLock));
        return None;
      }
      if !certified {
        Decline();
        return Some(Declined);
      }
      var ok := BroadcastLock();
      out := if ok then None else Some(Stopped);
    }

    method BroadcastLock() returns (ok: bool)
      requires Valid() && w.memB == Idle && w.b.lock == NoLock && w.b.refund.Some?
      modifies this
      ensures Valid() && old(|steps|) <= |steps| && (old(w.account).Spent? ==> w.account == old(w.account))
      ensures w.memB == Idle && |w.outputs| == |old(w.outputs)| + 1 && w.rounds == old(w.rounds)
      ensures w.b == if ok then old(w.b).(lock := Locked(|old(w.outputs)|)) else old(w.b)
      ensures !ok ==> LostWrite(B, old(|steps|))
      ensures old(looked) <= looked
    {
      Do(ByB(BLock));
      ok := PersistB();
    }

    /** With the other side not at the round after B had let it go on, B watched the account to the end. */
    ghost predicate WatchedInVain(from: nat, patience: nat)
      reads this
    {
      && from < waited <= |looked| && excuse.at < |worlds| && looked[waited - 1] == worlds[excuse.at]
      && Unclaimed(looked, waited, waited + patience)
    }

    /** The last wait was a whole hunt, which never had a lock to take in sight. */
    ghost predicate HuntedInVain(hunt: Hunting)
      reads this
    {
      Untaken(Sights(hunt), looked, waited, waited + |hunt.passes|)
    }

    /** `onMoved`: the frontier is B's own claim, or A's refund to recover from.  The hunt for
        the lock goes on for its passes; a lock that it sees and that is buried before they end
        is swept, and any other is closed out over. */
    method OnMoved(hunt: Hunting) returns (out: Outcome)
      requires Valid() && w.memB == Idle && w.b.lock != NoLock && w.b.refund.Some? && !w.b.claim && w.account.Spent?
      modifies this
      ensures Valid() && old(worlds) <= worlds && old(steps) <= steps
      ensures w.memB == Idle && |w.outputs| == |old(w.outputs)| && w.b.lock == old(w.b.lock)
      ensures out in {Done, Recovered, Stopped} && HonestB(out, old(|steps|), Sights(hunt), old(w.rounds))
      ensures old(w.account).sig.pre.block.dest == c.walletB <==> out == Done
      ensures out == Stopped ==> LostWrite(B, old(|steps|)) && SweptBy(w, B)
      ensures w.rounds == old(w.rounds)
      ensures Sights(hunt) && old(CanTakeBack()) && out != Done ==> SweptBy(w, B)
      ensures !Sights(hunt) && out != Done ==> out == Recovered && (SweptBy(w, B) <==> SweptBy(old(w), B))
      ensures old(looked) <= looked
      ensures out == Recovered && !SweptBy(w, B) ==> old(|looked|) <= waited && HuntedInVain(hunt)
    {
      if w.account.sig.pre.block.dest == c.walletB {
        Do(ByB(BObserveClaim));
        return Done;
      }
      var found := HuntLock(hunt);
      if found {
        out := TakeBack();
      } else {
        CloseOutNow(Sights(hunt));
        out := Recovered;
      }
    }

    /** Pass after pass, until a lock is there that the hunt sees. */
    method HuntLock(hunt: Hunting) returns (found: bool)
      requires Valid() && w.account.Spent?
      modifies this`w, this`worlds, this`steps, this`looked, this`waited
      ensures Valid() && old(worlds) <= worlds && old(steps) <= steps && old(looked) <= looked
      ensures w.b == old(w.b) && w.memB == old(w.memB) && w.account == old(w.account) && w.rounds == old(w.rounds)
      ensures |w.outputs| == |old(w.outputs)| && (SweptBy(w, B) <==> SweptBy(old(w), B))
      ensures found <==> Sights(hunt) && CanTakeBack()
      ensures Sights(hunt) && old(CanTakeBack()) ==> found
      ensures !found ==> waited == old(|looked|) && HuntedInVain(hunt)
    {
      waited := |looked|;
      var round := 0;
      while round < |hunt.passes| && !(Sights(hunt) && CanTakeBack())
        invariant Valid() && old(worlds) <= worlds && old(steps) <= steps && old(looked) <= looked
        invariant w.b == old(w.b) && w.memB == old(w.memB) && w.account == old(w.account) && w.rounds == old(w.rounds)
        invariant |w.outputs| == |old(w.outputs)| && (SweptBy(w, B) <==> SweptBy(old(w), B))
        invariant Sights(hunt) && old(CanTakeBack()) ==> CanTakeBack()
        invariant waited == old(|looked|) && |looked| == waited + round
        invariant Untaken(Sights(hunt), looked, waited, if round == 0 then waited else |looked| - 1)
        invariant round > 0 ==> looked[|looked| - 1] == w
      {
        AWhile();
        round := round + 1;
      }
      found := Sights(hunt) && CanTakeBack();
    }

    method CloseOutNow(ghost sees: bool)
      requires Valid() && w.memB == Idle && RefundLanded(c, w) && w.b.lock != NoLock && w.b.refund.Some? && !w.b.claim
      requires !(sees && CanTakeBack())
      modifies this`w, this`worlds, this`steps
      ensures Valid() && old(worlds) <= worlds && old(steps) <= steps
      ensures w == old(w).(b := old(w.b).(recovered := true)) && HonestB(Recovered, old(|steps|), sees, old(w.rounds))
      ensures SweptBy(w, B) <==> SweptBy(old(w), B)
    {
      CloseOutIsHonest(sees);
      Do(ByB(BCloseOut));
      assert w.outputs == old(w.outputs);
    }

    method TakeBack() returns (out: Outcome)
      requires Valid() && w.memB == Idle && !w.b.claim && CanTakeBack() && RefundLanded(c, w)
      modifies this
      ensures Valid() && old(worlds) <= worlds && old(steps) <= steps
      ensures w.memB == Idle && |w.outputs| == |old(w.outputs)| && w.b.lock == old(w.b.lock)
      ensures out in {Recovered, Stopped} && HonestB(out, old(|steps|), true, old(w.rounds)) && SweptBy(w, B)
      ensures out == Stopped ==> LostWrite(B, old(|steps|))
      ensures w.rounds == old(w.rounds)
      ensures old(looked) <= looked && waited == old(waited)
    {
      var k :| 0 <= k < |w.outputs| && w.outputs[k].mature && w.outputs[k].spentBy == None;
      SpendsStep(c, w, ByB(BRecover(k)), B);
      Do(ByB(BRecover(k)));
      var ok := PersistB();
      if Kept(c, w) {
        SweptIsAll(c, w);
      }
      out := if ok then Recovered else Stopped;
    }

    /** A session closed out has everything back only if every output is buried, and then it has
        if the hunt sees them. */
    lemma CloseOutIsHonest(sees: bool)
      requires Valid() && RefundLanded(c, w) && w.b.lock != NoLock && w.b.refund.Some? && !(sees && CanTakeBack())
      ensures Kept(c, w) ==> RecoveredIfSeen(sees)
    {
      if Kept(c, w) && w.outputs != [] {
        assert Extract(w.b.refund.value, w.account.sig) == Share(A);
        if sees && w.outputs[0].mature {
          SpentIsMine(c, w);
        }
      }
    }

    /** The claim round, then the broadcast that publishes x; or, with the counterparty away, a
        watch for its refund. */
    method Claim(patience: nat, hunt: Hunting) returns (out: Outcome)
      requires Valid() && w.memB == Idle && w.b.refund.Some? && w.b.lock != NoLock && !w.b.claim
      modifies this
      ensures Valid() && old(|steps|) <= |steps| && w.memB == Idle && |w.outputs| == |old(w.outputs)|
      ensures out in {Done, Recovered, Stopped} && w.b.lock == old(w.b.lock)
      ensures HonestB(out, old(|steps|), Sights(hunt), old(w.rounds))
      ensures out == Stopped && !LostWrite(B, old(|steps|)) ==>
                if excuse.why == NoClaimRound then !w.account.Spent? else excuse.why == AccountMoved && w.account.Spent?
      ensures w.rounds > old(w.rounds) ==> ClaimLanded(c, w) || (out == Stopped && excuse.why == AccountMoved)
      ensures old(looked) <= looked
      ensures out == Stopped && !LostWrite(B, old(|steps|)) && excuse.why == NoClaimRound ==>
                WatchedInVain(old(|looked|), patience)
      ensures out == Recovered && !SweptBy(w, B) ==> old(|looked|) <= waited && HuntedInVain(hunt)
    {
      AWhile();
      if EnabledRound(c, w, RoundClaim) {
        out := SignAndClaim();
        return;
      }
      ghost var at, met := |steps|, w;
      var watched := WatchForRefund(patience, hunt);
      if watched == None {
        excuse := Excuse(at, NoClaimRound);
        assert worlds[at] == met;
        return Stopped;
      }
      out := watched.value;
    }

    /** The round both are at, and then the claim, whatever A does in between. */
    method SignAndClaim() returns (out: Outcome)
      requires Valid() && EnabledRound(c, w, RoundClaim)
      modifies this
      ensures Valid() && old(|steps|) <= |steps| && w.memB == Idle && |w.outputs| == |old(w.outputs)|
      ensures w.b.lock == old(w.b.lock)
      ensures out in {Done, Stopped} && HonestB(out, old(|steps|), true, 0)
      ensures out == Stopped && !LostWrite(B, old(|steps|)) ==> excuse.why == AccountMoved && w.account.Spent?
      ensures ClaimLanded(c, w) || (out == Stopped && excuse.why == AccountMoved)
      ensures old(looked) <= looked
    {
      Do(Wire(RoundClaim));
      AWhile();
      out := CompleteClaim();
    }

    /** None means the account has not moved as long as `patience` lasted. */
    method WatchForRefund(patience: nat, hunt: Hunting) returns (out: Option<Outcome>)
      requires Valid() && w.memB == Idle && w.b.lock != NoLock && w.b.refund.Some? && !w.b.claim
      modifies this
      ensures Valid() && old(worlds) <= worlds && old(steps) <= steps
      ensures w.memB == Idle && |w.outputs| == |old(w.outputs)| && w.b.lock == old(w.b.lock)
      ensures w.rounds == old(w.rounds) && (out == None <==> !w.account.Spent?)
      ensures out.Some? ==>
                out.value in {Done, Recovered, Stopped} && HonestB(out.value, old(|steps|), Sights(hunt), old(w.rounds))
      ensures out == Some(Stopped) ==> LostWrite(B, old(|steps|))
      ensures old(looked) <= looked
      ensures out == None ==> waited == old(|looked|) && Unclaimed(looked, waited, waited + patience)
      ensures out == Some(Recovered) && !SweptBy(w, B) ==> old(|looked|) <= waited && HuntedInVain(hunt)
    {
      waited := |looked|;
      var round := 0;
      while round < patience && !w.account.Spent?
        invariant Valid() && old(worlds) <= worlds && old(steps) <= steps
        invariant w.memB == Idle && w.b == old(w.b) && |w.outputs| == |old(w.outputs)| && w.rounds == old(w.rounds)
        invariant old(looked) <= looked && waited == old(|looked|) && |looked| == waited + round
        invariant Unclaimed(looked, waited, if round == 0 then waited else |looked| - 1)
        invariant round > 0 ==> looked[|looked| - 1] == w
      {
        AWhile();
        round := round + 1;
      }
      if !w.account.Spent? { return None; }
      var r := OnMoved(hunt);
      out := Some(r);
    }

    /** Complete the pre-signature with x and broadcast it, unless the refund is there first. */
    method CompleteClaim() returns (out: Outcome)
      requires Valid() && w.memB.ClaimSigned?
      modifies this
      ensures Valid() && old(|steps|) <= |steps| && w.memB == Idle && |w.outputs| == |old(w.outputs)|
      ensures w.b.lock == old(w.b.lock)
      ensures out in {Done, Stopped} && HonestB(out, old(|steps|), true, old(w.rounds))
      ensures out == Stopped && !LostWrite(B, old(|steps|)) ==> excuse.why == AccountMoved && w.account.Spent?
      ensures old(w.account) == Opened(old(w.memB.pre.block.previous)) ==>
                ClaimLanded(c, w) && (out == Stopped ==> LostWrite(B, old(|steps|)))
      ensures old(w.account) != Opened(old(w.memB.pre.block.previous)) ==> out == Stopped && excuse.why == AccountMoved
      ensures old(looked) <= looked
    {
      if w.account != Opened(w.memB.pre.block.previous) {
        ghost var at, met := |steps|, w;
        Do(ByB(BStop));  // the refund was there first
        excuse := Excuse(at, AccountMoved);
        assert worlds[at] == met;
        return Stopped;
      }
      Do(ByB(BClaimBroadcast));
      var ok := PersistB();
      out := if ok then Done else Stopped;
    }

    /** B's side from its store's markers on: co-sign the open and the refund, lock, then
        claim, or recover once the refund is on chain.

        It reports what is so, stops short only for a reason found in the history, and locks
        once at most and only with the gate's consent.  PROGRESS: holding the refund, unless
        it lost a store write it ends done, recovered, or declined with nothing locked; or the
        account has no successor yet and A was not at the claim round; or it lost the race for
        the account, and then its next call that can read the frontier ends it. */
    method RunB(certifiedOpen: bool, certifiedLock: bool, readable: bool, patience: nat, hunt: Hunting)
      returns (out: Outcome)
      requires Valid() && w.memB == Idle
      modifies this
      ensures Valid() && old(|steps|) <= |steps|
      ensures w.memB == Idle
      ensures HonestB(out, old(|steps|), Sights(hunt), old(w.rounds) + OpensB(old(w)) + RefundsB(old(w)))
           || (out == Stopped && w.b.refund == None && NoLockYet(old(|steps|), old(w)))
      ensures w.rounds > old(w.rounds) + OpensB(old(w)) + RefundsB(old(w)) ==>
                ClaimLanded(c, w) || (out == Stopped && excuse.why == AccountMoved)
      ensures w.b.refund.Some? && out == Stopped && !LostWrite(B, old(|steps|)) ==>
                && w.b.lock != NoLock
                && if excuse.why == NoClaimRound then !w.account.Spent?
                   else excuse.why == AccountMoved && w.account.Spent?
      ensures old(w.b.refund).Some? && old(w.account).Spent? && readable ==>
                out in {Done, Recovered} || (out == Stopped && LostWrite(B, old(|steps|)))
      ensures out == Declined ==> !certifiedOpen || !certifiedLock
      ensures |w.outputs| == |old(w.outputs)|
           || (certifiedLock && old(w.b.lock) == NoLock && |w.outputs| == |old(w.outputs)| + 1)
      ensures old(looked) <= looked
      ensures w.b.refund.Some? && out == Stopped && !LostWrite(B, old(|steps|)) && excuse.why == NoClaimRound ==>
                WatchedInVain(old(|looked|), patience)
      ensures out == Recovered && !SweptBy(w, B) ==> old(|looked|) <= waited && HuntedInVain(hunt)
    {
      var early := CoSignOpen(certifiedOpen);
      if early.Some? { return early.value; }
      var held := CoSignRefund();
      if !held { return Stopped; }
      out := FromLockB(certifiedLock, readable, patience, hunt);
    }

    /** The rest of B's side, once it holds the refund. */
    method FromLockB(certifiedLock: bool, readable: bool, patience: nat, hunt: Hunting) returns (out: Outcome)
      requires Valid() && w.memB == Idle && w.b.open.Some? && w.b.refund.Some?
      modifies this
      ensures Valid() && old(|steps|) <= |steps| && old(looked) <= looked && w.memB == Idle
      ensures HonestB(out, old(|steps|), Sights(hunt), old(w.rounds))
      ensures w.rounds > old(w.rounds) ==> ClaimLanded(c, w) || (out == Stopped && excuse.why == AccountMoved)
      ensures out == Stopped && !LostWrite(B, old(|steps|)) ==>
                && w.b.lock != NoLock
                && if excuse.why == NoClaimRound then !w.account.Spent?
                   else excuse.why == AccountMoved && w.account.Spent?
      ensures old(w.account).Spent? && readable ==>
                out in {Done, Recovered} || (out == Stopped && LostWrite(B, old(|steps|)))
      ensures out == Declined ==> !certifiedLock
      ensures |w.outputs| == |old(w.outputs)|
           || (certifiedLock && old(w.b.lock) == NoLock && |w.outputs| == |old(w.outputs)| + 1)
      ensures out == Stopped && !LostWrite(B, old(|steps|)) && excuse.why == NoClaimRound ==>
                WatchedInVain(old(|looked|), patience)
      ensures out == Recovered && !SweptBy(w, B) ==> old(|looked|) <= waited && HuntedInVain(hunt)
    {
      var early := LockMonero(certifiedLock, readable);
      if early.Some? { return early.value; }
      if w.b.claim { return Done; }
      AWhile();
      if readable && w.account.Spent? {
        out := OnMoved(hunt);
      } else {
        out := Claim(patience, hunt);
      }
    }
  }
}
