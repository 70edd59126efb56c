/** `waitJointXmrLock` of web/two_party.js: waiting for the counterparty's Monero lock with
    flaky nodes, a ratcheting tip and a cached hit. */
module LockWait {
  import opened Common

  const XMR_CONF := 10
  const CHUNK := 10
  const ATTEMPTS := 3
  const LOOKBACK := 120
  const MARGIN := 5

  datatype Output = Output(amount: nat, block: nat)

  /** The joint account's outputs block by block, as far as the chain will be read. */
  type Chain = seq<seq<Output>>

  predicate WellFormed(chain: Chain) {
    forall b, i :: 0 <= b < |chain| && 0 <= i < |chain[b]| ==> chain[b][i].block == b
  }

  /** One pass of the outer loop: the height a node gave, how often the node failed on each
      chunk, and whether the deadline has passed or the price gate refuses after it. */
  datatype Pass = Pass(height: nat, failures: seq<nat>, expired: bool, refused: bool)

  datatype Outcome =
    | Found(hit: Output, tip: nat)
    | GaveUp       // the deadline
    | Abandoned    // the price gate, only while there is no hit
    | StillWaiting // the passes given are used up

  function Max(a: int, b: int): int { if a < b then b else a }
  function Min(a: int, b: int): int { if a < b then a else b }

  /** The depth asked for; 0 stands for an absent target. */
  function Depth(target: int): (d: nat)
    ensures 1 <= d <= XMR_CONF
  {
    Min(XMR_CONF, Max(1, if target == 0 then XMR_CONF else target))
  }

  /** The first block scanned; 0 stands for an unknown start height, or an absent lookback. */
  function WindowStart(since: nat, lookback: nat, tip: nat): nat {
    if since > 0 then Max(0, since - MARGIN) else Max(0, tip - if lookback == 0 then LOOKBACK else lookback)
  }

  function Highest(passes: seq<Pass>): nat {
    if passes == [] then 0 else Max(Highest(passes[..|passes| - 1]), passes[|passes| - 1].height)
  }

  /** An output of the chain, in [from, upTo), that pays at least the amount. */
  predicate Locks(chain: Chain, o: Output, min: nat, from: nat, upTo: nat) {
    from <= o.block < upTo && o.block < |chain| && o in chain[o.block] && o.amount >= min
  }

  ghost predicate NoLock(chain: Chain, min: nat, from: nat, upTo: nat) {
    forall o :: !Locks(chain, o, min, from, upTo)
  }

  /** No chunk of any pass is skipped. */
  ghost predicate AllClean(passes: seq<Pass>) {
    forall i :: 0 <= i < |passes| ==> Clean(passes[i])
  }

  predicate Clean(p: Pass) {
    forall i :: 0 <= i < |p.failures| ==> p.failures[i] < ATTEMPTS
  }

  // ---------- what a pass can see ----------

  function FailuresAt(p: Pass, chunk: nat): nat {
    if chunk < |p.failures| then p.failures[chunk] else 0
  }

  /** The pass scans the block: it lies in the window, and its chunk is not skipped. */
  predicate Sees(p: Pass, from: nat, tip: nat, block: nat) {
    from <= block < tip && FailuresAt(p, (block - from) / CHUNK) < ATTEMPTS
  }

  /** Some of the passes sees the block, each from its own window start. */
  predicate SeenIn(passes: seq<Pass>, since: nat, lookback: nat, block: nat) {
    passes != [] &&
    var tip := Highest(passes);
    (SeenIn(passes[..|passes| - 1], since, lookback, block)
     || Sees(passes[|passes| - 1], WindowStart(since, lookback, tip), tip, block))
  }

  /** It is seen by pass j or one before it. */
  predicate SeenBy(passes: seq<Pass>, since: nat, lookback: nat, block: nat, j: nat)
    requires j < |passes|
  {
    SeenIn(passes[..j + 1], since, lookback, block)
  }

  /** The one output on the joint address that pays. */
  ghost predicate Lone(chain: Chain, min: nat, o: Output) {
    Locks(chain, o, min, 0, |chain|) && forall q :: Locks(chain, q, min, 0, |chain|) ==> q == o
  }

  function Outputs(chain: Chain, from: nat, upTo: nat): seq<Output>
    requires upTo <= |chain|
    decreases upTo - from
  {
    if from >= upTo then [] else chain[from] + Outputs(chain, from + 1, upTo)
  }

  lemma {:induction false} OutputsAre(chain: Chain, from: nat, upTo: nat)
    requires WellFormed(chain) && upTo <= |chain|
    ensures forall o :: o in Outputs(chain, from, upTo) <==>
              o.block < |chain| && o in chain[o.block] && from <= o.block < upTo
    decreases upTo - from
  {
    if from < upTo {
      OutputsAre(chain, from + 1, upTo);
    }
  }

  lemma {:induction false} OutputsOrdered(chain: Chain, from: nat, upTo: nat, i: nat, j: nat)
    requires WellFormed(chain) && upTo <= |chain| && i <= j < |Outputs(chain, from, upTo)|
    ensures Outputs(chain, from, upTo)[i].block <= Outputs(chain, from, upTo)[j].block
    decreases upTo - from
  {
    var n := |chain[from]|;
    if i < n {
      OutputsAre(chain, from, upTo);
      assert Outputs(chain, from, upTo)[i] == chain[from][i];
      assert Outputs(chain, from, upTo)[j] in Outputs(chain, from, upTo);
    } else {
      OutputsOrdered(chain, from + 1, upTo, i - n, j - n);
    }
  }

  lemma FirstPayer(chain: Chain, min: nat, from: nat, upTo: nat, i: nat)
    requires WellFormed(chain) && upTo <= |chain| && i < |Outputs(chain, from, upTo)|
    requires forall k :: 0 <= k < i ==> Outputs(chain, from, upTo)[k].amount < min
    ensures NoLock(chain, min, from, Outputs(chain, from, upTo)[i].block)
  {
    OutputsAre(chain, from, upTo);
    var outs := Outputs(chain, from, upTo);
    assert outs[i] in outs;
    forall o | o in outs && o.amount >= min ensures o.block >= outs[i].block {
      var k :| 0 <= k < |outs| && outs[k] == o;
      OutputsOrdered(chain, from, upTo, i, k);
    }
  }

  lemma NoLockJoin(chain: Chain, min: nat, a: nat, b: nat, c: nat)
    requires NoLock(chain, min, a, b) && NoLock(chain, min, b, c)
    ensures NoLock(chain, min, a, c)
  {
    forall o: Output | o.block < |chain| && o in chain[o.block] && o.amount >= min ensures !(a <= o.block < c) {
      assert !Locks(chain, o, min, a, b) && !Locks(chain, o, min, b, c);
    }
  }

  /** With no lock before block b, every lock is as shallow as one at b. */
  lemma ShallowLocks(chain: Chain, min: nat, from: nat, b: nat, tip: nat, depth: nat)
    requires NoLock(chain, min, from, b) && tip - b < depth
    ensures forall o :: Locks(chain, o, min, from, tip) ==> tip - o.block < depth
  {
    forall o | Locks(chain, o, min, from, tip) ensures tip - o.block < depth {
      assert !Locks(chain, o, min, from, b);
    }
  }

  /** One chunk, three attempts: the first output that pays, or None; `skipped` when no
      attempt was answered. */
  method ScanChunk(chain: Chain, min: nat, from: nat, upTo: nat, failed: nat)
    returns (hit: Option<Output>, skipped: bool)
    requires WellFormed(chain) && upTo <= |chain|
    ensures skipped <==> failed >= ATTEMPTS
    ensures skipped ==> hit == None
    ensures !skipped && hit == None ==> NoLock(chain, min, from, upTo)
    ensures hit.Some? ==> Locks(chain, hit.value, min, from, upTo)
    ensures hit.Some? ==> NoLock(chain, min, from, hit.value.block)
  {
    hit := None;
    var outs: Option<seq<Output>> := None;
    var attempt := 0;
    while attempt < ATTEMPTS && outs == None
      invariant 0 <= attempt <= ATTEMPTS
      invariant outs == if attempt > failed then Some(Outputs(chain, from, upTo)) else None
    {
      if attempt >= failed { outs := Some(Outputs(chain, from, upTo)); }
      attempt := attempt + 1;
    }
    skipped := outs == None;
    if skipped { return; }
    OutputsAre(chain, from, upTo);
    for i := 0 to |outs.value|
      invariant forall k :: 0 <= k < i ==> outs.value[k].amount < min
    {
      if outs.value[i].amount >= min {
        FirstPayer(chain, min, from, upTo, i);
        return Some(outs.value[i]), false;
      }
    }
  }

  /** A block of the chunk at hand is seen exactly when the chunk is not skipped, and then a
      lock there is one to find. */
  lemma LoneInChunk(chain: Chain, min: nat, o: Output, p: Pass, from: nat, at: nat, upTo: nat, chunk: nat)
    requires Lone(chain, min, o) && at == from + CHUNK * chunk && at < upTo <= at + CHUNK
    ensures at <= o.block < upTo ==> (o.block - from) / CHUNK == chunk
    ensures forall q :: Locks(chain, q, min, at, upTo) ==> q == o && at <= o.block < upTo
    ensures NoLock(chain, min, at, upTo) ==> !(at <= o.block < upTo)
    ensures Sees(p, from, upTo, o.block) <==>
              Sees(p, from, at, o.block) || (at <= o.block < upTo && FailuresAt(p, chunk) < ATTEMPTS)
  {
    forall q | Locks(chain, q, min, at, upTo) ensures q == o {
      assert Locks(chain, q, min, 0, |chain|);
    }
    if at <= o.block < upTo {
      assert Locks(chain, o, min, at, upTo);
    }
  }

  /** The scan of one pass over [from, tip), chunk by chunk.  Nothing found in a clean pass
      means nothing is there, and the hit of a clean pass is the earliest there is; a lone lock
      `o` is found exactly when the pass sees its block. */
  method ScanWindow(chain: Chain, min: nat, from: nat, tip: nat, p: Pass, ghost o: Output)
    returns (hit: Option<Output>)
    requires WellFormed(chain) && tip <= |chain|
    ensures hit.Some? ==> Locks(chain, hit.value, min, from, tip)
    ensures Clean(p) && hit == None ==> NoLock(chain, min, from, tip)
    ensures Clean(p) && hit.Some? ==> NoLock(chain, min, from, hit.value.block)
    ensures Lone(chain, min, o) ==> (hit.Some? <==> Sees(p, from, tip, o.block)) && (hit.Some? ==> hit.value == o)
  {
    hit := None;
    var at, chunk := from, 0;
    while at < tip && hit == None
      invariant from <= at
      invariant hit.Some? ==> Locks(chain, hit.value, min, from, tip)
      invariant Clean(p) && hit == None ==> NoLock(chain, min, from, Min(at, tip))
      invariant Clean(p) && hit.Some? ==> NoLock(chain, min, from, hit.value.block)
      invariant at == from + CHUNK * chunk
      invariant Lone(chain, min, o) && hit.Some? ==> hit.value == o && Sees(p, from, tip, o.block)
      invariant Lone(chain, min, o) && hit == None ==> !Sees(p, from, Min(at, tip), o.block)
      decreases tip - at
    {
      var upTo := Min(at + CHUNK, tip);
      var skipped;
      hit, skipped := ScanChunk(chain, min, at, upTo, FailuresAt(p, chunk));
      if Lone(chain, min, o) {
        LoneInChunk(chain, min, o, p, from, at, upTo, chunk);
      }
      if Clean(p) {
        NoLockJoin(chain, min, from, at, if hit.Some? then hit.value.block else upTo);
      }
      at, chunk := at + CHUNK, chunk + 1;
    }
  }

  /** What the cached hit says after the given passes: with no chunk skipped and the start height
      known, nothing before it; and a lone lock is cached exactly when some pass saw it. */
  ghost predicate Cached(
    chain: Chain, min: nat, since: nat, lookback: nat, passes: seq<Pass>, hit: Option<Output>, o: Output)
  {
    var tip := Highest(passes);
    && (hit.Some? ==> Locks(chain, hit.value, min, 0, tip) && (since > 0 ==> hit.value.block >= since - MARGIN))
    && (since > 0 && AllClean(passes) ==>
        NoLock(chain, min, WindowStart(since, lookback, 0), if hit.Some? then hit.value.block else tip))
    && (Lone(chain, min, o) ==>
        (hit.Some? <==> SeenIn(passes, since, lookback, o.block)) && (hit.Some? ==> hit.value == o))
  }

  /** One more pass, scanning only while there is no hit. */
  method TakePass(
    chain: Chain, min: nat, since: nat, lookback: nat, passes: seq<Pass>, cached: Option<Output>, ghost o: Output)
    returns (hit: Option<Output>)
    requires WellFormed(chain) && passes != [] && Highest(passes) <= |chain|
    requires Cached(chain, min, since, lookback, passes[..|passes| - 1], cached, o)
    ensures Cached(chain, min, since, lookback, passes, hit, o)
  {
    var p, tip := passes[|passes| - 1], Highest(passes);
    hit := cached;
    if hit == None {
      hit := ScanWindow(chain, min, WindowStart(since, lookback, tip), tip, p, o);
    }
    if AllClean(passes) {
      assert AllClean(passes[..|passes| - 1]) && Clean(p);
    }
  }

  /** With a shallow hit or none, clean passes leave no lock of the depth asked for. */
  lemma NothingDeep(chain: Chain, min: nat, since: nat, lookback: nat, passes: seq<Pass>, hit: Option<Output>,
                    o: Output, depth: nat)
    requires Cached(chain, min, since, lookback, passes, hit, o) && since > 0 && AllClean(passes) && depth > 0
    requires hit.Some? ==> Highest(passes) - hit.value.block < depth
    ensures var from, tip := WindowStart(since, lookback, 0), Highest(passes);
            forall q :: Locks(chain, q, min, from, tip) ==> tip - q.block < depth
  {
    var tip := Highest(passes);
    var clear := if hit.Some? then hit.value.block else tip;
    ShallowLocks(chain, min, WindowStart(since, lookback, 0), clear, tip, depth);
  }

  /** The wait.  `used` passes were taken.

      A lock is accepted only at the depth asked for, measured from the highest tip any node
      has shown.  When no chunk is skipped and the start height is known, the wait misses
      nothing: without a result, no lock at that depth exists yet, and the price gate gives
      up only if no lock is visible at all.  A lone lock `o` is found exactly when some pass
      sees it and it is deep enough by the last; the gate gives up only if none has seen it. */
  method Wait(chain: Chain, min: nat, since: nat, lookback: nat, target: int, passes: seq<Pass>, ghost o: Output)
    returns (outcome: Outcome, used: nat)
    requires WellFormed(chain) && forall i :: 0 <= i < |passes| ==> passes[i].height <= |chain|
    ensures used <= |passes| && (outcome.StillWaiting? ==> used == |passes|)
    ensures outcome.Found? ==>
              && Locks(chain, outcome.hit, min, 0, outcome.tip)
              && outcome.tip == Highest(passes[..used])
              && outcome.tip - outcome.hit.block >= Depth(target)
              && (since > 0 ==> outcome.hit.block >= since - MARGIN)
    ensures outcome.GaveUp? ==> used > 0 && passes[used - 1].expired
    ensures outcome.Abandoned? ==> used > 0 && passes[used - 1].refused
    ensures since > 0 && AllClean(passes[..used]) ==>
              var from, tip := WindowStart(since, lookback, 0), Highest(passes[..used]);
              && (!outcome.Found? ==> forall o :: Locks(chain, o, min, from, tip) ==> tip - o.block < Depth(target))
              && (outcome.Found? ==> NoLock(chain, min, from, outcome.hit.block))
              && (outcome.Abandoned? ==> NoLock(chain, min, from, tip))
    ensures Lone(chain, min, o) ==>
              var (seen, tip) := (SeenIn(passes[..used], since, lookback, o.block), Highest(passes[..used]));
              && (outcome.Found? <==> seen && tip - o.block >= Depth(target))
              && (outcome.Found? ==> outcome.hit == o)
              && (outcome.Abandoned? ==> !seen)
              && forall j :: 0 <= j < used - 1 && passes[j].refused ==> SeenBy(passes, since, lookback, o.block, j)
  {
    var hit: Option<Output> := None;
    used := 0;
    while used < |passes|
      invariant used <= |passes| && Highest(passes[..used]) <= |chain|
      invariant Cached(chain, min, since, lookback, passes[..used], hit, o)
      invariant hit.Some? ==> Highest(passes[..used]) - hit.value.block < Depth(target)
      invariant Lone(chain, min, o) ==>
                  forall j :: 0 <= j < used && passes[j].refused ==> SeenBy(passes, since, lookback, o.block, j)
    {
      assert passes[..used + 1][..used] == passes[..used];
      used := used + 1;
      hit := TakePass(chain, min, since, lookback, passes[..used], hit, o);
      var p, tip := passes[used - 1], Highest(passes[..used]);
      if hit.Some? && tip - hit.value.block >= Depth(target) {
        return Found(hit.value, tip), used;
      }
      if since > 0 && AllClean(passes[..used]) {
        NothingDeep(chain, min, since, lookback, passes[..used], hit, o, Depth(target));
      }
      if p.expired { return GaveUp, used; }
      if hit == None && p.refused { return Abandoned, used; }
    }
    if since > 0 && AllClean(passes[..used]) {
      NothingDeep(chain, min, since, lookback, passes[..used], hit, o, Depth(target));
    }
    outcome := StillWaiting;
  }

  const HUNT_LOOKBACK := 5000

  /** The hunt of `recoverXmrFromRefund`: ten deep, ungated, from the recorded lock height or,
      when that is unknown (0), some 5000 blocks back, until its deadline.  It finds B's lock
      exactly when some pass sees it and it is buried by the last; a skipped chunk or too short
      a lookback hides a buried lock. */
  method Hunt(chain: Chain, min: nat, lockHeight: nat, passes: seq<Pass>, ghost o: Output)
    returns (found: Option<Output>)
    requires WellFormed(chain) && forall i :: 0 <= i < |passes| ==> passes[i].height <= |chain|
    requires forall i :: 0 <= i < |passes| ==> !passes[i].refused && (passes[i].expired <==> i == |passes| - 1)
    ensures Lone(chain, min, o) ==>
              (found == Some(o) <==>
               SeenIn(passes, lockHeight, HUNT_LOOKBACK, o.block) && Highest(passes) - o.block >= XMR_CONF)
  {
    var outcome, used := Wait(chain, min, lockHeight, HUNT_LOOKBACK, 0, passes, o);
    found := if outcome.Found? then Some(outcome.hit) else None;
    if outcome.Found? {
      if Lone(chain, min, o) {
        SeenStays(passes, lockHeight, HUNT_LOOKBACK, o.block, used);
      }
    } else {
      assert passes[..used] == passes;
    }
  }

  lemma {:induction false} SeenStays(passes: seq<Pass>, since: nat, lookback: nat, block: nat, n: nat)
    requires n <= |passes| && SeenIn(passes[..n], since, lookback, block)
    ensures SeenIn(passes, since, lookback, block) && Highest(passes[..n]) <= Highest(passes)
  {
    if n == |passes| {
      assert passes[..n] == passes;
    } else {
      assert passes[..|passes| - 1][..n] == passes[..n];
      SeenStays(passes[..|passes| - 1], since, lookback, block, n);
    }
  }

  // ---------- what a gated wait comes to ----------

  /** One pass, for one lock: whether it sees the lock, and whether the gate refuses after it. */
  datatype Look = Look(sees: bool, refused: bool)

  function LookAt(passes: seq<Pass>, since: nat, lookback: nat, block: nat, i: nat): Look
    requires i < |passes|
  {
    var tip := Highest(passes[..i + 1]);
    Look(Sees(passes[i], WindowStart(since, lookback, tip), tip, block), passes[i].refused)
  }

  function LooksAt(passes: seq<Pass>, since: nat, lookback: nat, block: nat): seq<Look> {
    seq(|passes|, i requires 0 <= i < |passes| => LookAt(passes, since, lookback, block, i))
  }

  /** Some look sees the lock, and the gate refuses after none before it. */
  predicate SeesInTime(looks: seq<Look>) {
    exists i :: 0 <= i < |looks| && looks[i].sees && forall j :: 0 <= j < i ==> !looks[j].refused
  }

  /** A block is seen exactly when some look sees it, and then one is the first. */
  lemma {:induction false} SeenByLook(passes: seq<Pass>, since: nat, lookback: nat, block: nat, n: nat)
    returns (first: nat)
    requires n <= |passes|
    ensures SeenIn(passes[..n], since, lookback, block) ==>
              first < n && LookAt(passes, since, lookback, block, first).sees
              && !SeenIn(passes[..first], since, lookback, block)
    ensures !SeenIn(passes[..n], since, lookback, block) ==>
              forall i :: 0 <= i < n ==> !LookAt(passes, since, lookback, block, i).sees
  {
    if n == 0 {
      first := 0;
    } else {
      assert passes[..n][..n - 1] == passes[..n - 1];
      first := SeenByLook(passes, since, lookback, block, n - 1);
      if !SeenIn(passes[..n - 1], since, lookback, block) { first := n - 1; }
    }
  }

  /** A wait without a deadline for a lock that is buried already, as A's sweep does it: the
      lock is found exactly when a pass sees it before the gate refuses. */
  method SweepWait(chain: Chain, min: nat, since: nat, passes: seq<Pass>, ghost o: Output)
    returns (found: Option<Output>)
    requires WellFormed(chain) && forall i :: 0 <= i < |passes| ==> passes[i].height <= |chain| && !passes[i].expired
    ensures Lone(chain, min, o) && passes != [] && passes[0].height - o.block >= XMR_CONF ==>
              (found == Some(o) <==> SeesInTime(LooksAt(passes, since, 0, o.block)))
  {
    var outcome, used := Wait(chain, min, since, 0, 0, passes, o);
    found := if outcome.Found? then Some(outcome.hit) else None;
    if Lone(chain, min, o) && passes != [] && passes[0].height - o.block >= XMR_CONF {
      ghost var looks := LooksAt(passes, since, 0, o.block);
      ghost var first := SeenByLook(passes, since, 0, o.block, used);
      if outcome.Found? {
        forall j | 0 <= j < first ensures !looks[j].refused {
          if passes[j].refused {
            assert SeenBy(passes, since, 0, o.block, j);
            assert passes[..first][..j + 1] == passes[..j + 1];
            SeenStays(passes[..first], since, 0, o.block, j + 1);
          }
        }
        assert looks[first].sees;
      } else {
        HighestFromFirst(passes, used);
        assert outcome.Abandoned? ==> looks[used - 1].refused;
      }
    }
  }

  lemma {:induction false} HighestFromFirst(passes: seq<Pass>, n: nat)
    requires 0 < n <= |passes|
    ensures Highest(passes[..n]) >= passes[0].height
  {
    assert passes[..n][..n - 1] == passes[..n - 1];
    if n > 1 { HighestFromFirst(passes, n - 1); }
  }
}
