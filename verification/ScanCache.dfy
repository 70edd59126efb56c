/** The Monero side of the headless wallet, web/headless_wallet.js: the incremental scan
    cache and the spent set. */
module ScanCache {
  import opened Common

  const XMR_UNLOCK := 10
  const LOOKBACK := 720
  const MAX_INPUTS := 16
  const MAX_BLOCKS := 20
  const FEE_BASE := 100_000_000
  const FEE_PER_INPUT := 30_000_000

  datatype Output = Output(index: nat, amount: nat, block: nat)

  /** The wallet's outputs block by block, as far as the chain will ever be read.  A node's
      tip is some height within it, and nodes need not agree on one. */
  type Chain = seq<seq<Output>>

  ghost predicate WellFormed(chain: Chain) {
    && (forall b, i :: 0 <= b < |chain| && 0 <= i < |chain[b]| ==> chain[b][i].block == b)
    && (forall o, p :: Owned(chain, o) && Owned(chain, p) && o.index == p.index ==> o == p)
  }

  predicate Owned(chain: Chain, o: Output) {
    o.block < |chain| && o in chain[o.block]
  }

  /** The JSON state file. */
  datatype Store = Store(restore: nat, scannedTo: Option<nat>, outputs: seq<Output>, spent: seq<nat>)

  const Blank := Store(0, None, [], [])

  // ---------- one scan ----------

  function AddNew(outputs: seq<Output>, found: seq<Output>): seq<Output> {
    if found == [] then outputs
    else
      var before := AddNew(outputs, found[..|found| - 1]);
      var o := found[|found| - 1];
      if exists i :: 0 <= i < |before| && before[i].index == o.index then before else before + [o]
  }

  /** `scan_all`: the wallet's outputs in blocks [from, upTo). */
  function ScanAll(chain: Chain, from: nat, upTo: nat): seq<Output>
    requires upTo <= |chain|
    decreases upTo - from
  {
    if from >= upTo then [] else chain[from] + ScanAll(chain, from + 1, upTo)
  }

  function Smaller(a: int, b: int): int { if a < b then a else b }

  /** One round of the refresh loop against a node at height `tip`.  A node behind the
      checkpoint pulls the checkpoint back to its own tip. */
  function Scanned(chain: Chain, st: Store, tip: nat): Store
    requires st.scannedTo.Some? && tip <= |chain|
  {
    var from := st.scannedTo.value;
    var last := Smaller(tip - 1, from + MAX_BLOCKS - 1);
    if from > last then st.(scannedTo := Some(tip))
    else st.(outputs := AddNew(st.outputs, ScanAll(chain, from, last + 1)), scannedTo := Some(last + 1))
  }

  /** The first refresh of a blank wallet starts a day back. */
  function Started(st: Store, tip: nat): Store {
    var restore := if tip < LOOKBACK then 0 else tip - LOOKBACK;
    if st.scannedTo == None then st.(restore := restore, scannedTo := Some(restore)) else st
  }

  // ---------- the cache ----------

  predicate OneEach(outputs: seq<Output>) {
    forall i, j :: 0 <= i < j < |outputs| ==> outputs[i].index != outputs[j].index
  }

  /** Everything owned in [restore, scannedTo) is cached, each output once, and nothing else
      but outputs the wallet does own. */
  ghost predicate Cached(chain: Chain, st: Store) {
    && OneEach(st.outputs)
    && (forall i :: 0 <= i < |st.outputs| ==> Owned(chain, st.outputs[i]))
    && (st.scannedTo.Some? ==>
        && st.scannedTo.value <= |chain|
        && forall o :: Owned(chain, o) && st.restore <= o.block < st.scannedTo.value ==> o in st.outputs)
  }

  lemma {:induction false} ScanAllIs(chain: Chain, from: nat, upTo: nat)
    requires WellFormed(chain) && upTo <= |chain|
    ensures forall o :: o in ScanAll(chain, from, upTo) <==> Owned(chain, o) && from <= o.block < upTo
    decreases upTo - from
  {
    if from < upTo {
      ScanAllIs(chain, from + 1, upTo);
    }
  }

  lemma {:induction false} AddNewIs(chain: Chain, outputs: seq<Output>, found: seq<Output>)
    requires WellFormed(chain) && OneEach(outputs)
    requires forall i :: 0 <= i < |outputs| ==> Owned(chain, outputs[i])
    requires forall o <- found :: Owned(chain, o)
    ensures OneEach(AddNew(outputs, found))
    ensures forall o :: o in AddNew(outputs, found) <==> o in outputs || o in found
  {
    if found != [] {
      var front, o := found[..|found| - 1], found[|found| - 1];
      assert found == front + [o];
      AddNewIs(chain, outputs, front);
      var before := AddNew(outputs, front);
      if exists i :: 0 <= i < |before| && before[i].index == o.index {
        var i :| 0 <= i < |before| && before[i].index == o.index;
        assert Owned(chain, before[i]) && before[i] == o;
      }
    }
  }

  /** A scan of any node, ahead or behind, keeps the cache exact. */
  lemma ScanKeepsCache(chain: Chain, st: Store, tip: nat)
    requires WellFormed(chain) && Cached(chain, st) && st.scannedTo.Some? && tip <= |chain|
    ensures Cached(chain, Scanned(chain, st, tip))
    ensures forall o <- st.outputs :: o in Scanned(chain, st, tip).outputs
  {
    var from := st.scannedTo.value;
    var last := Smaller(tip - 1, from + MAX_BLOCKS - 1);
    if from <= last {
      ScanAllIs(chain, from, last + 1);
      AddNewIs(chain, st.outputs, ScanAll(chain, from, last + 1));
    }
  }

  lemma StartKeepsCache(chain: Chain, st: Store, tip: nat)
    requires Cached(chain, st) && tip <= |chain|
    ensures Cached(chain, Started(st, tip)) && Started(st, tip).scannedTo.Some?
  {
  }

  /** FULL-SCAN EQUIVALENCE, once caught up with a tip: what is cached below it is exactly
      what a scan of the whole range would find. */
  lemma CaughtUpIsFullScan(chain: Chain, st: Store)
    requires WellFormed(chain) && Cached(chain, st) && st.scannedTo.Some?
    ensures forall o: Output :: st.restore <= o.block < st.scannedTo.value ==>
              (o in st.outputs <==> o in ScanAll(chain, st.restore, st.scannedTo.value))
  {
    ScanAllIs(chain, st.restore, st.scannedTo.value);
  }

  // ---------- a whole refresh ----------

  datatype Refused = NoNode | BadAmount | NotEnough | NotBuilt | NotAccepted

  /** What each scan call of a refresh meets: the tip of the first node that answered, or
      nothing when every node failed. */
  type Tips = seq<Option<nat>>

  ghost predicate Within(chain: Chain, tips: Tips) {
    forall i :: 0 <= i < |tips| && tips[i].Some? ==> tips[i].value <= |chain|
  }

  /** Rounds from the k-th on, until caught up or out of budget, the length of `tips`. */
  ghost function Rounds(chain: Chain, st: Store, tip: nat, tips: Tips, k: nat): (Store, Result<nat, Refused>)
    requires st.scannedTo.Some? && Within(chain, tips) && k <= |tips|
    decreases |tips| - k
  {
    if k == |tips| then (st, Ok(tip))
    else if tips[k] == None then (st, Err(NoNode))
    else
      var scanned := Scanned(chain, st, tips[k].value);
      if scanned.scannedTo.value >= tips[k].value then (scanned, Ok(tips[k].value))
      else Rounds(chain, scanned, tips[k].value, tips, k + 1)
  }

  ghost function Refreshed(chain: Chain, st: Store, tips: Tips): (Store, Result<nat, Refused>)
    requires Within(chain, tips)
  {
    if st.scannedTo.Some? then Rounds(chain, st, st.scannedTo.value, tips, 0)
    else if tips == [] || tips[0] == None then (st, Err(NoNode))
    else
      var started := Started(st, tips[0].value);
      Rounds(chain, started, started.scannedTo.value, tips, 1)
  }

  /** A node whose tip stands still is caught up with in one round per twenty blocks. */
  lemma {:induction false} CatchesUp(chain: Chain, st: Store, tip: nat, tips: Tips, k: nat, target: nat)
    requires st.scannedTo.Some? && Within(chain, tips) && k < |tips|
    requires forall i :: k <= i < |tips| ==> tips[i] == Some(target)
    requires st.scannedTo.value + MAX_BLOCKS * (|tips| - k) >= target
    ensures Rounds(chain, st, tip, tips, k).1 == Ok(target)
    ensures Rounds(chain, st, tip, tips, k).0.scannedTo == Some(target)
    decreases |tips| - k
  {
    assert tips[k] == Some(target);
    var scanned := Scanned(chain, st, target);
    if scanned.scannedTo.value < target {
      CatchesUp(chain, scanned, target, tips, k + 1, target);
    }
  }

  // ---------- choosing inputs ----------

  function PlaceByAmount(outs: seq<Output>, o: Output): seq<Output> {
    if outs == [] then [o]
    else if outs[|outs| - 1].amount <= o.amount then outs + [o]
    else PlaceByAmount(outs[..|outs| - 1], o) + [outs[|outs| - 1]]
  }

  predicate Spendable(st: Store, o: Output, tip: nat) {
    o.index !in st.spent && tip - o.block >= XMR_UNLOCK
  }

  /** The first n cached outputs that are unspent and unlocked, smallest amount first. */
  function Candidates(st: Store, tip: nat, n: nat): seq<Output>
    requires n <= |st.outputs|
  {
    if n == 0 then []
    else
      var before := Candidates(st, tip, n - 1);
      if Spendable(st, st.outputs[n - 1], tip) then PlaceByAmount(before, st.outputs[n - 1]) else before
  }

  predicate Ascending(outs: seq<Output>) {
    forall i, j :: 0 <= i < j < |outs| ==> outs[i].amount <= outs[j].amount
  }

  lemma {:induction false} PlaceIs(outs: seq<Output>, o: Output)
    requires Ascending(outs) && OneEach(outs) && forall x <- outs :: x.index != o.index
    ensures Ascending(PlaceByAmount(outs, o)) && OneEach(PlaceByAmount(outs, o))
    ensures forall x :: x in PlaceByAmount(outs, o) <==> x in outs || x == o
  {
    if outs != [] {
      var front, last := outs[..|outs| - 1], outs[|outs| - 1];
      assert outs == front + [last];
      if last.amount > o.amount {
        PlaceIs(front, o);
        var placed := PlaceByAmount(front, o);
        forall i | 0 <= i < |placed| ensures placed[i].index != last.index && placed[i].amount <= last.amount {
          assert placed[i] in placed;
        }
      }
    }
  }

  lemma {:induction false} CandidatesAre(st: Store, tip: nat, n: nat)
    requires OneEach(st.outputs) && n <= |st.outputs|
    ensures Ascending(Candidates(st, tip, n)) && OneEach(Candidates(st, tip, n))
    ensures forall x :: x in Candidates(st, tip, n) <==> x in st.outputs[..n] && Spendable(st, x, tip)
  {
    if n > 0 {
      CandidatesAre(st, tip, n - 1);
      assert st.outputs[..n] == st.outputs[..n - 1] + [st.outputs[n - 1]];
      if Spendable(st, st.outputs[n - 1], tip) {
        PlaceIs(Candidates(st, tip, n - 1), st.outputs[n - 1]);
      }
    }
  }

  function SumOf(outs: seq<Output>): nat {
    if outs == [] then 0 else SumOf(outs[..|outs| - 1]) + outs[|outs| - 1].amount
  }

  function Needed(amount: nat, inputs: nat): nat {
    amount + FEE_BASE + FEE_PER_INPUT * (if inputs < 1 then 1 else inputs)
  }

  /** k inputs, taken smallest first, pay for the amount and their own fee. */
  predicate Covers(outs: seq<Output>, amount: nat, k: nat)
    requires k <= |outs|
  {
    k >= 1 && SumOf(outs[..k]) >= Needed(amount, k)
  }

  /** The selection loop of `xmrSend`: the fewest smallest inputs that cover, or none exactly
      when no admissible number of them does. */
  method ChooseInputs(outs: seq<Output>, amount: nat) returns (chosen: Option<seq<Output>>)
    ensures chosen.Some? ==>
              && 1 <= |chosen.value| <= MAX_INPUTS && |chosen.value| <= |outs|
              && chosen.value == outs[..|chosen.value|]
              && Covers(outs, amount, |chosen.value|)
              && forall k :: 0 <= k < |chosen.value| ==> !Covers(outs, amount, k)
    ensures chosen.Some? ==>
              |chosen.value| <= 16 && SumOf(chosen.value) >= amount + 100_000_000 + 30_000_000 * |chosen.value|
    ensures chosen == None <==> forall k :: 0 <= k <= MAX_INPUTS && k <= |outs| ==> !Covers(outs, amount, k)
  {
    var sum := 0;
    var i := 0;
    while i < |outs|
      invariant 0 <= i <= |outs| && i <= MAX_INPUTS
      invariant sum == SumOf(outs[..i])
      invariant forall k :: 0 <= k <= i ==> !Covers(outs, amount, k)
    {
      if i >= MAX_INPUTS { break; }
      assert outs[..i + 1][..i] == outs[..i];
      sum := sum + outs[i].amount;
      i := i + 1;
      if sum >= amount + FEE_BASE + FEE_PER_INPUT * i {
        return Some(outs[..i]);
      }
    }
    chosen := None;
  }

  // ---------- runs: scans, sends, and crashes anywhere ----------

  /** A wallet: its state file, the signed transaction it has in memory, and the inputs of
      every transaction it ever offered to a node. */
  datatype Wallet = Wallet(st: Store, signed: Option<seq<nat>>, offered: seq<seq<nat>>)

  datatype Event =
    | Scan(tip: nat)                          // one round of the refresh loop, saved
    | Start(tip: nat)
    | Sign(tip: nat, picked: seq<Output>)      // build, sign, mark spent and save
    | Offer                                   // publish; a refusal may still have spread it
    | Crash
    | Unread                                  // the file does not read back

  function Indices(outs: seq<Output>): seq<nat> {
    seq(|outs|, i requires 0 <= i < |outs| => outs[i].index)
  }

  /** `unread` says whether the state file can fail to read back, by a crash inside its write,
      which is not atomic, or by any error of the read: either way a blank state is loaded, and
      the next save keeps that. */
  predicate Can(chain: Chain, w: Wallet, e: Event, unread: bool) {
    match e
    case Scan(tip) => w.signed == None && w.st.scannedTo.Some? && tip <= |chain|
    case Start(tip) => w.signed == None && tip <= |chain|
    case Sign(tip, picked) =>
      w.signed == None && OneEach(picked) && forall o <- picked :: o in w.st.outputs && Spendable(w.st, o, tip)
    case Offer => w.signed.Some?
    case Crash => true
    case Unread => unread
  }

  function Does(chain: Chain, w: Wallet, e: Event): Wallet
    requires Can(chain, w, e, true)
  {
    match e
    case Scan(tip) => w.(st := Scanned(chain, w.st, tip))
    case Start(tip) => w.(st := Started(w.st, tip))
    case Sign(_, picked) =>
      w.(st := w.st.(spent := w.st.spent + Indices(picked)), signed := Some(Indices(picked)))
    case Offer => w.(signed := None, offered := w.offered + [w.signed.value])
    case Crash => w.(signed := None)
    case Unread => w.(st := Blank, signed := None)  // any error loads as a blank file
  }

  function Run(chain: Chain, events: seq<Event>, unread: bool): Option<Wallet> {
    if events == [] then Some(Wallet(Blank, None, []))
    else
      var before := Run(chain, events[..|events| - 1], unread);
      if before.Some? && Can(chain, before.value, events[|events| - 1], unread) then
        Some(Does(chain, before.value, events[|events| - 1]))
      else None
  }

  lemma RunStep(chain: Chain, events: seq<Event>, e: Event, unread: bool)
    requires Run(chain, events, unread).Some? && Can(chain, Run(chain, events, unread).value, e, unread)
    ensures Run(chain, events + [e], unread) == Some(Does(chain, Run(chain, events, unread).value, e))
  {
    assert (events + [e])[..|events|] == events;
  }

  predicate NoRepeats(ids: seq<nat>) {
    forall i, j :: 0 <= i < j < |ids| ==> ids[i] != ids[j]
  }

  predicate Apart(a: seq<nat>, b: seq<nat>) {
    forall i, j :: 0 <= i < |a| && 0 <= j < |b| ==> a[i] != b[j]
  }

  predicate Marked(w: Wallet, tx: seq<nat>) {
    NoRepeats(tx) && forall i :: 0 <= i < |tx| ==> tx[i] in w.st.spent
  }

  /** Everything signed or offered is marked spent, and no two transactions share an input. */
  predicate SpentOnce(w: Wallet) {
    && (forall k :: 0 <= k < |w.offered| ==> Marked(w, w.offered[k]))
    && (forall k, l :: 0 <= k < l < |w.offered| ==> Apart(w.offered[k], w.offered[l]))
    && (w.signed.Some? ==> Marked(w, w.signed.value))
    && (w.signed.Some? ==> forall k :: 0 <= k < |w.offered| ==> Apart(w.offered[k], w.signed.value))
  }

  lemma SignKeepsApart(chain: Chain, w: Wallet, e: Event)
    requires SpentOnce(w) && Can(chain, w, e, false) && e.Sign?
    ensures SpentOnce(Does(chain, w, e))
  {
    var chosen := Indices(e.picked);
    var v := Does(chain, w, e);
    forall i | 0 <= i < |chosen| ensures chosen[i] !in w.st.spent && chosen[i] in v.st.spent {
      assert e.picked[i] in e.picked;
      assert v.st.spent[|w.st.spent| + i] == chosen[i];
    }
    forall k | 0 <= k < |w.offered| ensures Marked(v, w.offered[k]) && Apart(w.offered[k], chosen) {
      assert Marked(w, w.offered[k]);
    }
  }

  /** EXACT CACHE.  Over any sequence of scans of lagging or disagreeing nodes, sends and
      crashes, files that do not read back included, the cache is exact. */
  lemma {:induction false} CacheIsExact(chain: Chain, events: seq<Event>, unread: bool)
    requires WellFormed(chain) && Run(chain, events, unread).Some?
    ensures Cached(chain, Run(chain, events, unread).value.st)
  {
    if events != [] {
      CacheIsExact(chain, events[..|events| - 1], unread);
      var w := Run(chain, events[..|events| - 1], unread).value;
      match events[|events| - 1]
      case Scan(tip) => ScanKeepsCache(chain, w.st, tip);
      case Start(tip) => StartKeepsCache(chain, w.st, tip);
      case _ =>
    }
  }

  /** SPENT ONCE.  While the file always reads back, no output is ever an input of two
      transactions offered to the network, across scans, sends and crashes. */
  lemma {:induction false} WalletSpendsOnce(chain: Chain, events: seq<Event>)
    requires Run(chain, events, false).Some?
    ensures SpentOnce(Run(chain, events, false).value)
  {
    if events != [] {
      var e := events[|events| - 1];
      WalletSpendsOnce(chain, events[..|events| - 1]);
      var w := Run(chain, events[..|events| - 1], false).value;
      match e
      case Sign(_, _) => SignKeepsApart(chain, w, e);
      case Offer => OfferKeepsApart(chain, w);
      case Scan(_) => SpendingUntouched(w, Does(chain, w, e));
      case Start(_) => SpendingUntouched(w, Does(chain, w, e));
      case Crash => SpendingUntouched(w, Does(chain, w, e));
      case Unread =>
    }
  }

  lemma {:induction false} PrefixRuns(chain: Chain, events: seq<Event>, unread: bool, i: nat)
    requires i <= |events| && Run(chain, events, unread).Some?
    ensures Run(chain, events[..i], unread).Some?
    ensures i < |events| ==> Can(chain, Run(chain, events[..i], unread).value, events[i], unread)
    decreases |events|
  {
    if i < |events| {
      var n := |events| - 1;
      assert events[..n][..i] == events[..i];
      if i < n {
        PrefixRuns(chain, events[..n], unread, i);
      }
    } else {
      assert events[..i] == events;
    }
  }

  /** RIPE INPUTS.  Whatever was scanned, sent and lost before, every input a wallet ever signs is an
      output it owns, at least ten blocks below the tip its node showed, and not marked spent. */
  lemma SignedInputsAreRipe(chain: Chain, events: seq<Event>, unread: bool, i: nat, o: Output)
    requires WellFormed(chain) && Run(chain, events, unread).Some?
    requires i < |events| && events[i].Sign? && o in events[i].picked
    ensures Owned(chain, o) && o.block + 10 <= events[i].tip
    ensures Run(chain, events[..i], unread).Some? && o.index !in Run(chain, events[..i], unread).value.st.spent
  {
    PrefixRuns(chain, events, unread, i);
    CacheIsExact(chain, events[..i], unread);
  }

  // ---------- what a file that does not read back does ----------

  const Coin := Output(0, 1, 0)

  function OneCoin(): Chain {
    seq(XMR_UNLOCK, b => if b == 0 then [Coin] else [])
  }

  lemma CoinIsFound(st: Store)
    requires st == Started(Blank, XMR_UNLOCK)
    ensures WellFormed(OneCoin()) && |OneCoin()| == XMR_UNLOCK
    ensures var v := Scanned(OneCoin(), st, XMR_UNLOCK); Coin in v.outputs && v.spent == []
  {
    var chain := OneCoin();
    assert forall o :: Owned(chain, o) ==> o == Coin;
    assert Owned(chain, Coin);
    ScanAllIs(chain, 0, XMR_UNLOCK);
    AddNewIs(chain, [], ScanAll(chain, 0, XMR_UNLOCK));
  }

  /** From a blank file the wallet finds its coin and spends it. */
  lemma SpendFromBlank(events: seq<Event>, w: Wallet) returns (longer: seq<Event>, v: Wallet)
    requires Run(OneCoin(), events, true) == Some(w) && w.st == Blank && w.signed == None
    ensures Run(OneCoin(), longer, true) == Some(v)
    ensures v.signed == None && v.offered == w.offered + [[0]]
  {
    var chain, tip := OneCoin(), XMR_UNLOCK;
    CoinIsFound(Started(Blank, tip));
    RunStep(chain, events, Start(tip), true);
    longer := events + [Start(tip)];
    RunStep(chain, longer, Scan(tip), true);
    longer := longer + [Scan(tip)];
    RunStep(chain, longer, Sign(tip, [Coin]), true);
    longer := longer + [Sign(tip, [Coin])];
    assert Indices([Coin]) == [0];
    RunStep(chain, longer, Offer, true);
    longer, v := longer + [Offer], Run(chain, longer + [Offer], true).value;
  }

  /** The failing input: the wallet spends its coin, its file does not read back, and it spends
      the coin again. */
  lemma UnreadFileSpendsTwice() returns (events: seq<Event>, w: Wallet)
    ensures Run(OneCoin(), events, true) == Some(w) && w.offered == [[0], [0]]
  {
    events, w := SpendFromBlank([], Wallet(Blank, None, []));
    RunStep(OneCoin(), events, Unread, true);
    events, w := SpendFromBlank(events + [Unread], Does(OneCoin(), w, Unread));
  }

  ghost predicate AlwaysSpendsOnce(unread: bool) {
    forall chain, events :: Run(chain, events, unread).Some? ==> SpentOnce(Run(chain, events, unread).value)
  }

  /** EXACTLY.  No output is ever spent twice if and only if the file always reads back. */
  lemma SpendsOnceExactly(unread: bool)
    ensures AlwaysSpendsOnce(unread) <==> !unread
  {
    if unread {
      var events, w := UnreadFileSpendsTwice();
      assert w.offered[0][0] == w.offered[1][0] && !Apart(w.offered[0], w.offered[1]);
    } else {
      forall chain, events | Run(chain, events, unread).Some? ensures SpentOnce(Run(chain, events, unread).value) {
        WalletSpendsOnce(chain, events);
      }
    }
  }

  lemma SpendingUntouched(w: Wallet, v: Wallet)
    requires SpentOnce(w) && v.st.spent == w.st.spent && v.offered == w.offered && v.signed in {None, w.signed}
    ensures SpentOnce(v)
  {
    forall k | 0 <= k < |w.offered| ensures Marked(v, v.offered[k]) {
      assert Marked(w, w.offered[k]);
    }
  }

  lemma OfferKeepsApart(chain: Chain, w: Wallet)
    requires SpentOnce(w) && Can(chain, w, Offer, false)
    ensures SpentOnce(Does(chain, w, Offer))
  {
    var v := Does(chain, w, Offer);
    forall k | 0 <= k < |v.offered| ensures Marked(v, v.offered[k]) {
      assert Marked(w, if k < |w.offered| then w.offered[k] else w.signed.value);
    }
    forall k, l | 0 <= k < l < |v.offered| ensures Apart(v.offered[k], v.offered[l]) {
      assert k < |w.offered|;
    }
  }

  // ---------- the wallet object ----------

  /** `history` grows by scans only. */
  ghost predicate OnlyScans(before: seq<Event>, after: seq<Event>) {
    before <= after && forall i :: |before| <= i < |after| ==> after[i].Scan? || after[i].Start?
  }

  lemma ScansGrow(before: seq<Event>, after: seq<Event>, e: Event)
    requires OnlyScans(before, after) && (e.Scan? || e.Start?)
    ensures OnlyScans(before, after + [e])
  {
  }

  /** How a send ends, from the refreshed file `st` to the file `after`: inputs are the fewest
      smallest spendable ones that cover, marked spent as soon as a transaction exists. */
  ghost predicate Settled(st: Store, tip: nat, amount: nat, built: bool, accepted: bool,
                          r: Result<seq<nat>, Refused>, after: Store)
  {
    var able := Candidates(st, tip, |st.outputs|);
    if forall k :: 0 <= k <= MAX_INPUTS && k <= |able| ==> !Covers(able, amount, k) then
      r == Err(NotEnough) && after == st
    else if !built then r == Err(NotBuilt) && after == st
    else
      exists n :: 1 <= n <= |able| && n <= MAX_INPUTS && FewestCover(able, amount, n)
        && after == st.(spent := st.spent + Indices(able[..n]))
        && r == (if accepted then Ok(Indices(able[..n])) else Err(NotAccepted))
  }

  predicate FewestCover(outs: seq<Output>, amount: nat, n: nat)
    requires n <= |outs|
  {
    Covers(outs, amount, n) && forall k :: 0 <= k < n ==> !Covers(outs, amount, k)
  }

  class HeadlessWallet {
    const chain: Chain
    var restore: nat
    var scannedTo: Option<nat>
    var outputs: seq<Output>
    var spent: seq<nat>
    var offered: seq<seq<nat>>
    ghost var history: seq<Event>

    function State(): Store
      reads this
    {
      Store(restore, scannedTo, outputs, spent)
    }

    /** The state file is where some run of the event system leaves it. */
    ghost predicate Valid()
      reads this
    {
      WellFormed(chain) && Run(chain, history, false) == Some(Wallet(State(), None, offered))
    }

    constructor (chain: Chain)
      requires WellFormed(chain)
      ensures Valid() && this.chain == chain && State() == Blank && offered == [] && history == []
    {
      this.chain := chain;
      restore, scannedTo, outputs, spent := 0, None, [], [];
      offered, history := [], [];
    }

    /** The first contact of a blank wallet: scanning starts a day back. */
    method StartScan(tip: nat)
      requires Valid() && scannedTo == None && tip <= |chain|
      modifies this
      ensures Valid() && history == old(history) + [Start(tip)]
      ensures State() == Started(old(State()), tip) && offered == old(offered)
      ensures scannedTo == Some(restore) && restore == if tip < 720 then 0 else tip - 720
    {
      RunStep(chain, history, Start(tip), false);
      restore := if tip < LOOKBACK then 0 else tip - LOOKBACK;
      scannedTo := Some(restore);
      history := history + [Start(tip)];
    }

    /** Merges the outputs of one scan into the cache, by index. */
    method Merge(found: seq<Output>)
      modifies this`outputs
      ensures outputs == AddNew(old(outputs), found)
    {
      var i := 0;
      while i < |found|
        invariant 0 <= i <= |found|
        invariant outputs == AddNew(old(outputs), found[..i])
      {
        assert found[..i + 1][..i] == found[..i];
        if !exists j :: 0 <= j < |outputs| && outputs[j].index == found[i].index {
          outputs := outputs + [found[i]];
        }
        i := i + 1;
      }
      assert found[..i] == found;
    }

    /** One round of `xmrRefresh` at a node reporting `tip`, saved to the file. */
    method ScanRound(tip: nat)
      requires Valid() && scannedTo.Some? && tip <= |chain|
      modifies this
      ensures Valid() && history == old(history) + [Scan(tip)]
      ensures State() == Scanned(chain, old(State()), tip) && offered == old(offered)
    {
      RunStep(chain, history, Scan(tip), false);
      var from := scannedTo.value;
      var last := Smaller(tip - 1, from + MAX_BLOCKS - 1);
      if from > last {
        scannedTo := Some(tip);
      } else {
        Merge(ScanAll(chain, from, last + 1));
        scannedTo := Some(last + 1);
      }
      history := history + [Scan(tip)];
    }

    /** SAFE AT REST.  Wherever its methods leave it, the wallet's cache is exact, and no
        output is an input of two transactions it has offered. */
    lemma Safe()
      requires Valid()
      ensures Cached(chain, State()) && SpentOnce(Wallet(State(), None, offered))
    {
      CacheIsExact(chain, history, false);
      WalletSpendsOnce(chain, history);
    }

    /** `xmrRefresh`. */
    method XmrRefresh(tips: Tips) returns (r: Result<nat, Refused>)
      requires Valid() && Within(chain, tips)
      modifies this
      ensures Valid() && OnlyScans(old(history), history) && offered == old(offered)
      ensures (State(), r) == Refreshed(chain, old(State()), tips)
      ensures spent == old(spent) && (r.Err? ==> r.error == NoNode)
    {
      if scannedTo == None {
        if |tips| == 0 || tips[0] == None { return Err(NoNode); }
        StartScan(tips[0].value);
        r := ScanRounds(tips, 1);
      } else {
        r := ScanRounds(tips, 0);
      }
    }

    /** The loop of `xmrRefresh`, from its k-th scan call on. */
    method ScanRounds(tips: Tips, from: nat) returns (r: Result<nat, Refused>)
      requires Valid() && Within(chain, tips) && from <= |tips| && scannedTo.Some?
      modifies this
      ensures Valid() && OnlyScans(old(history), history) && offered == old(offered)
      ensures (State(), r) == Rounds(chain, old(State()), old(scannedTo.value), tips, from)
      ensures spent == old(spent) && (r.Err? ==> r.error == NoNode)
    {
      var k := from;
      var tip: nat := scannedTo.value;
      while k < |tips|
        invariant from <= k <= |tips| && Valid() && scannedTo.Some?
        invariant OnlyScans(old(history), history)
        invariant spent == old(spent) && offered == old(offered)
        invariant Rounds(chain, State(), tip, tips, k) == Rounds(chain, old(State()), old(scannedTo.value), tips, from)
      {
        if tips[k] == None { return Err(NoNode); }
        tip := tips[k].value;
        ScansGrow(old(history), history, Scan(tip));
        ScanRound(tip);
        if scannedTo.value >= tip { return Ok(tip); }
        k := k + 1;
      }
      r := Ok(tip);
    }

    /** Marks the inputs of a signed transaction spent, saves, and only then offers it. */
    method MarkAndOffer(tip: nat, picked: seq<Output>) returns (tx: seq<nat>)
      requires Valid() && Can(chain, Wallet(State(), None, offered), Sign(tip, picked), false)
      modifies this
      ensures Valid() && history == old(history) + [Sign(tip, picked), Offer]
      ensures tx == Indices(picked) && spent == old(spent) + tx && offered == old(offered) + [tx]
      ensures restore == old(restore) && scannedTo == old(scannedTo) && outputs == old(outputs)
    {
      RunStep(chain, history, Sign(tip, picked), false);
      tx := Indices(picked);
      spent := spent + tx;
      history := history + [Sign(tip, picked)];
      RunStep(chain, history, Offer, false);
      offered := offered + [tx];
      history := history + [Offer];
    }

    /** `xmrSend`: refresh, choose, build and sign once, mark spent, and only then offer the
        transaction.  `built` and `accepted` say whether some node built and accepted it. */
    method XmrSend(amount: int, tips: Tips, built: bool, accepted: bool)
      returns (r: Result<seq<nat>, Refused>)
      requires Valid() && Within(chain, tips)
      modifies this
      ensures Valid()
      ensures amount <= 0 <==> r == Err(BadAmount)
      ensures amount <= 0 ==> State() == old(State()) && offered == old(offered)
      ensures amount > 0 ==>
                var (st, tip) := Refreshed(chain, old(State()), tips);
                && (tip.Err? <==> r == Err(NoNode))
                && (tip.Ok? ==> Settled(st, tip.value, amount, built, accepted, r, State()))
      ensures spent == old(spent) ==> offered == old(offered)
      ensures spent != old(spent) ==> |old(spent)| <= |spent| && offered == old(offered) + [spent[|old(spent)|..]]
    {
      if amount <= 0 { return Err(BadAmount); }
      var tip := XmrRefresh(tips);
      if tip.Err? { return Err(tip.error); }
      Safe();
      var able := Candidates(State(), tip.value, |outputs|);
      CandidatesAre(State(), tip.value, |outputs|);
      var chosen := ChooseInputs(able, amount);
      if chosen == None { return Err(NotEnough); }
      if !built { return Err(NotBuilt); }
      var tx := MarkAndOffer(tip.value, chosen.value);
      r := if accepted then Ok(tx) else Err(NotAccepted);
    }
  }
}
