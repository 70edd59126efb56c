/** The guard ladder of swap-core/nano-ceremony/src/guard.rs, over a ledger that takes one
    block per frontier. */
module GuardLadder {
  import opened Common
  import opened NanoBlock

  datatype Signature = SignedBy(key: Bytes32, msg: Bytes32) | Forged

  datatype Rung = Rung(block: StateBlock, signature: Signature)

  predicate SignatureOk(key: Bytes32, msg: Bytes32, s: Signature) {
    s == SignedBy(key, msg)
  }

  /** `Rung::verify`: a value-free change block signed by the account's key. */
  predicate VerifyRung(r: Rung, account: Bytes32, balance: nat) {
    && r.block.account == account
    && r.block.balance == balance
    && r.block.link == ZERO
    && r.block.subtype == Change
    && SignatureOk(account, r.block.Hash(), r.signature)
  }

  // ---------- building ----------

  /** The chain of hashes a ladder climbs from a frontier. */
  function Climbed(account: Bytes32, frontier: Bytes32, rep: Bytes32, balance: nat, k: nat): Bytes32 {
    if k == 0 then frontier
    else ChangeBlock(account, Climbed(account, frontier, rep, balance, k - 1), rep, balance).Hash()
  }

  /** `build_rungs`: rung k sits on the frontier left by the k rungs before it. */
  method BuildRungs(account: Bytes32, frontier: Bytes32, rep: Bytes32, balance: nat, count: nat)
    returns (rungs: seq<StateBlock>)
    ensures |rungs| == count
    ensures forall k :: 0 <= k < count ==>
              rungs[k] == ChangeBlock(account, Climbed(account, frontier, rep, balance, k), rep, balance)
  {
    rungs := [];
    var previous := frontier;
    for i := 0 to count
      invariant |rungs| == i
      invariant previous == Climbed(account, frontier, rep, balance, i)
      invariant forall k :: 0 <= k < i ==>
                  rungs[k] == ChangeBlock(account, Climbed(account, frontier, rep, balance, k), rep, balance)
    {
      var block := ChangeBlock(account, previous, rep, balance);
      previous := block.Hash();
      rungs := rungs + [block];
    }
  }

  datatype Ladder = Ladder(account: Bytes32, balance: nat, rungs: seq<Rung>)

  predicate Chained(rungs: seq<Rung>) {
    forall k :: 0 <= k < |rungs| - 1 ==> rungs[k + 1].block.previous == rungs[k].block.Hash()
  }

  /** `GuardLadder::new`. */
  function NewLadder(account: Bytes32, balance: nat, rungs: seq<Rung>): Option<Ladder> {
    if Chained(rungs) && forall i :: 0 <= i < |rungs| ==> VerifyRung(rungs[i], account, balance) then
      Some(Ladder(account, balance, rungs))
    else None
  }

  function Find(rungs: seq<Rung>, frontier: Bytes32): (i: Option<nat>)
    ensures i.Some? ==> i.value < |rungs| && rungs[i.value].block.previous == frontier
    ensures i == None ==> forall k :: 0 <= k < |rungs| ==> rungs[k].block.previous != frontier
  {
    if rungs == [] then None
    else if rungs[0].block.previous == frontier then Some(0)
    else match Find(rungs[1..], frontier)
         case None => None
         case Some(i) => Some(i + 1)
  }

  /** `next_rung` and `remaining`. */
  function NextRung(l: Ladder, frontier: Bytes32): Option<Rung> {
    match Find(l.rungs, frontier)
    case None => None
    case Some(i) => Some(l.rungs[i])
  }

  function Remaining(l: Ladder, frontier: Bytes32): nat {
    match Find(l.rungs, frontier)
    case None => 0
    case Some(i) => |l.rungs| - i
  }

  /** `from_confirmed`: against what the node reports of the account, and only on its path. */
  function FromConfirmed(account: Bytes32, confirmed: Option<nat>, frontier: Option<Bytes32>,
                         rungs: seq<Rung>): Option<Ladder>
  {
    if confirmed == None then None
    else
      var l := NewLadder(account, confirmed.value, rungs);
      if l == None || frontier == None || NextRung(l.value, frontier.value) == None then None else l
  }

  // ---------- the ledger ----------

  datatype Chain = Chain(frontier: Bytes32, balance: nat)

  datatype SignedBlock = SignedBlock(block: StateBlock, signature: Signature)

  /** Consensus for one account: the previous block must be the frontier, the signature must
      verify, a change moves no value and a send does not overdraw. */
  predicate Accepts(account: Bytes32, c: Chain, b: SignedBlock) {
    && b.block.account == account
    && b.block.previous == c.frontier
    && SignatureOk(account, b.block.Hash(), b.signature)
    && match b.block.subtype
       case Send => b.block.balance < c.balance
       case Receive => b.block.balance > c.balance
       case Change => b.block.balance == c.balance && b.block.link == ZERO
       case Open => false
  }

  function Confirmed(account: Bytes32, c: Chain, b: SignedBlock): Chain {
    if Accepts(account, c, b) then Chain(b.block.Hash(), b.block.balance) else c
  }

  function ConfirmAll(account: Bytes32, c: Chain, bs: seq<SignedBlock>): Chain {
    if bs == [] then c else Confirmed(account, ConfirmAll(account, c, bs[..|bs| - 1]), bs[|bs| - 1])
  }

  /** Frontiers only get deeper, so none comes back. */
  lemma {:induction false} FrontierDeepens(account: Bytes32, c: Chain, bs: seq<SignedBlock>)
    ensures Height(ConfirmAll(account, c, bs).frontier) >= Height(c.frontier)
    ensures ConfirmAll(account, c, bs).frontier != c.frontier ==>
              Height(ConfirmAll(account, c, bs).frontier) > Height(c.frontier)
  {
    if bs != [] {
      FrontierDeepens(account, c, bs[..|bs| - 1]);
    }
  }

  /** DEAD FOREVER.  Once any block lands, every block signed against the frontier it replaced
      is refused in every later state of the account, whatever is confirmed in between. */
  lemma StaleIsRefusedForever(account: Bytes32, c: Chain, landed: SignedBlock, later: seq<SignedBlock>,
                              stale: SignedBlock)
    requires Accepts(account, c, landed) && stale.block.previous == c.frontier
    ensures !Accepts(account, ConfirmAll(account, Confirmed(account, c, landed), later), stale)
  {
    FrontierDeepens(account, Confirmed(account, c, landed), later);
  }

  // ---------- climbing ----------

  /** The ladder both parties signed: every built rung with the joint signature. */
  function SignedRungs(account: Bytes32, frontier: Bytes32, rep: Bytes32, balance: nat, n: nat): seq<Rung> {
    seq(n, k requires 0 <= k < n => RungAt(account, frontier, rep, balance, k))
  }

  function RungAt(account: Bytes32, frontier: Bytes32, rep: Bytes32, balance: nat, k: nat): Rung {
    var b := ChangeBlock(account, Climbed(account, frontier, rep, balance, k), rep, balance);
    Rung(b, SignedBy(account, b.Hash()))
  }

  lemma RungsChain(account: Bytes32, frontier: Bytes32, rep: Bytes32, balance: nat, k: nat)
    ensures VerifyRung(RungAt(account, frontier, rep, balance, k), account, balance)
    ensures RungAt(account, frontier, rep, balance, k + 1).block.previous ==
            RungAt(account, frontier, rep, balance, k).block.Hash()
  {
  }

  lemma {:induction false} ClimbHeight(account: Bytes32, frontier: Bytes32, rep: Bytes32, balance: nat, k: nat)
    ensures Height(Climbed(account, frontier, rep, balance, k)) == Height(frontier) + k
  {
    if k > 0 {
      ClimbHeight(account, frontier, rep, balance, k - 1);
    }
  }

  lemma {:induction false} FindAt(rungs: seq<Rung>, frontier: Bytes32, k: nat)
    requires k < |rungs| && rungs[k].block.previous == frontier
    requires forall i :: 0 <= i < |rungs| && i != k ==> rungs[i].block.previous != frontier
    ensures Find(rungs, frontier) == Some(k)
  {
    if k > 0 {
      FindAt(rungs[1..], frontier, k - 1);
    }
  }

  lemma BuiltIsAccepted(account: Bytes32, frontier: Bytes32, rep: Bytes32, balance: nat, n: nat)
    ensures var rungs := SignedRungs(account, frontier, rep, balance, n);
            NewLadder(account, balance, rungs) == Some(Ladder(account, balance, rungs))
  {
    var rungs := SignedRungs(account, frontier, rep, balance, n);
    forall i | 0 <= i < n ensures VerifyRung(rungs[i], account, balance) {
      RungsChain(account, frontier, rep, balance, i);
    }
    forall i | 0 <= i < n - 1 ensures rungs[i + 1].block.previous == rungs[i].block.Hash() {
      RungsChain(account, frontier, rep, balance, i);
    }
  }

  /** A ladder as built and signed is accepted by `new`, and at the frontier k rungs up it
      offers rung k and reports n - k remaining; at the top, nothing. */
  lemma LadderOffersEachRung(account: Bytes32, frontier: Bytes32, rep: Bytes32, balance: nat, n: nat, k: nat)
    requires k <= n
    ensures var rungs := SignedRungs(account, frontier, rep, balance, n);
            var l := Ladder(account, balance, rungs);
            var at := Climbed(account, frontier, rep, balance, k);
            && NewLadder(account, balance, rungs) == Some(l)
            && (k < n ==> NextRung(l, at) == Some(rungs[k]))
            && (k == n ==> NextRung(l, at) == None)
            && Remaining(l, at) == n - k
  {
    var rungs := SignedRungs(account, frontier, rep, balance, n);
    var at := Climbed(account, frontier, rep, balance, k);
    forall i | 0 <= i < n ensures rungs[i].block.previous == at <==> i == k {
      ClimbHeight(account, frontier, rep, balance, i);
      ClimbHeight(account, frontier, rep, balance, k);
    }
    BuiltIsAccepted(account, frontier, rep, balance, n);
    if k < n {
      FindAt(rungs, at, k);
    }
  }

  /** What broadcasting the next rung k times in a row leaves of the account. */
  function Walked(l: Ladder, c: Chain, k: nat): Chain {
    if k == 0 then c
    else
      var before := Walked(l, c, k - 1);
      match NextRung(l, before.frontier)
      case None => before
      case Some(r) => Confirmed(l.account, before, SignedBlock(r.block, r.signature))
  }

  /** THE WALK.  From the frontier it was built on, a ladder of n rungs is climbed in exactly
      n broadcasts, each accepted, one rung fewer remaining each time, and no value moves. */
  lemma {:induction false} WalkClimbs(account: Bytes32, frontier: Bytes32, rep: Bytes32, balance: nat, n: nat, k: nat)
    requires k <= n
    ensures var l := Ladder(account, balance, SignedRungs(account, frontier, rep, balance, n));
            var c := Walked(l, Chain(frontier, balance), k);
            && c == Chain(Climbed(account, frontier, rep, balance, k), balance)
            && Remaining(l, c.frontier) == n - k
            && (NextRung(l, c.frontier) == None <==> k == n)
  {
    LadderOffersEachRung(account, frontier, rep, balance, n, k);
    if k > 0 {
      WalkClimbs(account, frontier, rep, balance, n, k - 1);
      LadderOffersEachRung(account, frontier, rep, balance, n, k - 1);
    }
  }

  /** A ladder taken against the node's report moves no value on the account it was taken
      for: every rung it can offer is accepted there and leaves the balance alone. */
  lemma ConfirmedLadderIsValueFree(account: Bytes32, c: Chain, rungs: seq<Rung>)
    requires FromConfirmed(account, Some(c.balance), Some(c.frontier), rungs).Some?
    ensures var l := FromConfirmed(account, Some(c.balance), Some(c.frontier), rungs).value;
            && NextRung(l, c.frontier).Some?
            && var r := NextRung(l, c.frontier).value;
               Accepts(account, c, SignedBlock(r.block, r.signature))
               && Confirmed(account, c, SignedBlock(r.block, r.signature)).balance == c.balance
  {
  }

  // ---------- any ladder that is accepted ----------

  /** ACCEPTED, EXACTLY.  `new` takes the rungs that verify one by one as value-free changes of this
      account and follow one another, and no others. */
  lemma NewExactly(account: Bytes32, balance: nat, rungs: seq<Rung>)
    ensures NewLadder(account, balance, rungs).Some? <==>
              && (forall i :: 0 <= i < |rungs| ==>
                    var b := rungs[i].block;
                    && b == ChangeBlock(account, b.previous, b.representative, balance)
                    && rungs[i].signature == SignedBy(account, b.Hash()))
              && (forall i :: 0 < i < |rungs| ==> rungs[i].block.previous == rungs[i - 1].block.Hash())
    ensures NewLadder(account, balance, rungs) in {None, Some(Ladder(account, balance, rungs))}
  {
    if forall i :: 0 < i < |rungs| ==> rungs[i].block.previous == rungs[i - 1].block.Hash() {
      forall k | 0 <= k < |rungs| - 1 ensures rungs[k + 1].block.previous == rungs[k].block.Hash() {
        assert rungs[k + 1].block.previous == rungs[k + 1 - 1].block.Hash();
      }
    }
  }

  lemma {:induction false} RungHeight(rungs: seq<Rung>, k: nat)
    requires Chained(rungs) && k < |rungs|
    ensures Height(rungs[k].block.previous) == Height(rungs[0].block.previous) + k
  {
    if k > 0 {
      RungHeight(rungs, k - 1);
      assert rungs[k - 1 + 1].block.previous == rungs[k - 1].block.Hash();
    }
  }

  /** No two rungs of a chained ladder sit on the same frontier, and its top is none of theirs. */
  lemma OneRungEach(rungs: seq<Rung>, k: nat)
    requires Chained(rungs) && k < |rungs|
    ensures Find(rungs, rungs[k].block.previous) == Some(k)
    ensures Find(rungs, rungs[|rungs| - 1].block.Hash()) == None
  {
    RungHeight(rungs, |rungs| - 1);
    forall i | 0 <= i < |rungs|
      ensures rungs[i].block.previous == rungs[k].block.previous ==> i == k
      ensures rungs[i].block.previous != rungs[|rungs| - 1].block.Hash()
    {
      RungHeight(rungs, i);
      RungHeight(rungs, k);
    }
    FindAt(rungs, rungs[k].block.previous, k);
  }

  /** ANY ACCEPTED LADDER CLIMBS.  From whichever of its frontiers the account is at, broadcasting the
      offered rung again and again lands every rung that remains, in order and each accepted, moves
      no value, and ends on top with nothing left to offer. */
  lemma {:induction false} AcceptedLadderClimbs(account: Bytes32, balance: nat, rungs: seq<Rung>, i: nat, k: nat)
    requires NewLadder(account, balance, rungs).Some? && i + k <= |rungs| && i < |rungs|
    ensures var l := Ladder(account, balance, rungs);
            var c := Walked(l, Chain(rungs[i].block.previous, balance), k);
            && c.balance == balance && Remaining(l, c.frontier) == |rungs| - i - k
            && c.frontier == (if i + k < |rungs| then rungs[i + k].block.previous else rungs[|rungs| - 1].block.Hash())
            && NextRung(l, c.frontier) == if i + k < |rungs| then Some(rungs[i + k]) else None
  {
    OneRungEach(rungs, if i + k < |rungs| then i + k else i);
    if k > 0 {
      AcceptedLadderClimbs(account, balance, rungs, i, k - 1);
      var j := i + k - 1;
      assert VerifyRung(rungs[j], account, balance);
      assert j + 1 < |rungs| ==> rungs[j + 1].block.previous == rungs[j].block.Hash();
    }
  }

  /** CONFIRMED, EXACTLY.  A ladder is taken against a node's report just when the node reports both
      the balance the rungs keep and a frontier one of them sits on. */
  lemma ConfirmedExactly(account: Bytes32, confirmed: Option<nat>, frontier: Option<Bytes32>, rungs: seq<Rung>)
    ensures FromConfirmed(account, confirmed, frontier, rungs).Some? <==>
              && confirmed.Some? && NewLadder(account, confirmed.value, rungs).Some?
              && frontier.Some? && exists i :: 0 <= i < |rungs| && rungs[i].block.previous == frontier.value
  {
  }
}
