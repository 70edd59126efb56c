/** The gossip relay of swap-core/dexd/src/relay.rs under concurrency: any number of
    threads inside `ingest` and `sweep`, interleaved at every lock acquisition, with the
    de-duplication set and the book behind their two locks. */
module Relay {
  import opened Common
  import opened Orders
  import opened Book

  const MAX_BOOK := 50_000

  type Tid = nat

  datatype Ingest = Accepted | Duplicate | Rejected

  datatype Job = Job(order: SignedOrder, now: nat, pof: bool)

  /** Where a thread is.  The lock it waits for or holds is part of the name. */
  datatype Pc =
    | IngestCalled(job: Job)        // waits for seen
    | MarkSeen(job: Job)            // holds seen
    | Reserved(job: Job)            // marked; waits for book
    | InBook(job: Job)              // holds book
    | RollBack(job: Job)            // holds book, waits for seen
    | Unmark(job: Job)              // holds both
    | Returned(result: Ingest)
    | SweepCalled(now: nat)         // waits for book
    | SweepBook(now: nat)           // holds book
    | PruneWait(dropped: seq<Hash>) // holds book, waits for seen
    | Prune(dropped: seq<Hash>)     // holds both
    | Swept(count: nat)

  /** `clock` is the time given to the last call, `swept` the highest given to a sweep, `sweeps`
      the sweeps that went over the book, and `accepted` the hashes whose ingest returned
      `Accepted`, in order: history the code does not keep. */
  datatype State = State(
    book: seq<BookEntry>, seen: set<Hash>, bookLock: Option<Tid>, seenLock: Option<Tid>,
    threads: map<Tid, Pc>, clock: nat, swept: nat, sweeps: nat, accepted: seq<Hash>)

  const Empty := State([], {}, None, None, map[], 0, 0, 0, [])

  datatype Step = Spawn(t: Tid, call: Pc) | Go(t: Tid)

  predicate IsCall(pc: Pc) { pc.IngestCalled? || pc.SweepCalled? }

  /** The caller reads the clock before the call waits for any lock. */
  function CallTime(call: Pc): nat
    requires IsCall(call)
  {
    if call.IngestCalled? then call.job.now else call.now
  }

  function Latest(a: nat, b: nat): nat { if a < b then b else a }

  predicate WantsBook(pc: Pc) { pc.Reserved? || pc.SweepCalled? }
  predicate WantsSeen(pc: Pc) { pc.IngestCalled? || pc.RollBack? || pc.PruneWait? }
  predicate HoldsBook(pc: Pc) {
    pc.InBook? || pc.RollBack? || pc.Unmark? || pc.SweepBook? || pc.PruneWait? || pc.Prune?
  }

  predicate HoldsSeen(pc: Pc) { pc.MarkSeen? || pc.Unmark? || pc.Prune? }
  predicate Over(pc: Pc) { pc.Returned? || pc.Swept? }

  predicate Enabled(s: State, step: Step) {
    match step
    case Spawn(t, call) => t !in s.threads && IsCall(call)
    case Go(t) =>
      && t in s.threads && !Over(s.threads[t])
      && (WantsBook(s.threads[t]) ==> s.bookLock == None)
      && (WantsSeen(s.threads[t]) ==> s.seenLock == None)
  }

  function Next(s: State, step: Step): State
    requires Enabled(s, step)
  {
    match step
    case Spawn(t, call) =>
      s.(threads := s.threads[t := call], clock := CallTime(call),
         swept := if call.SweepCalled? then Latest(s.swept, call.now) else s.swept)
    case Go(t) =>
      match s.threads[t]
      case IngestCalled(job) => s.(seenLock := Some(t), threads := s.threads[t := MarkSeen(job)])
      case MarkSeen(job) =>
        var h := HashOf(job.order);
        if h in s.seen then s.(seenLock := None, threads := s.threads[t := Returned(Duplicate)])
        else s.(seen := s.seen + {h}, seenLock := None, threads := s.threads[t := Reserved(job)])
      case Reserved(job) => s.(bookLock := Some(t), threads := s.threads[t := InBook(job)])
      case InBook(job) =>
        if |s.book| >= MAX_BOOK || !Verifies(job.order, job.now) then s.(threads := s.threads[t := RollBack(job)])
        else
          s.(book := Inserted(s.book, BookEntry(job.order, job.now, job.pof)), bookLock := None,
             threads := s.threads[t := Returned(Accepted)], accepted := s.accepted + [HashOf(job.order)])
      case RollBack(job) => s.(seenLock := Some(t), threads := s.threads[t := Unmark(job)])
      case Unmark(job) =>
        s.(seen := s.seen - {HashOf(job.order)}, seenLock := None, bookLock := None,
           threads := s.threads[t := Returned(Rejected)])
      case SweepCalled(now) => s.(bookLock := Some(t), threads := s.threads[t := SweepBook(now)])
      case SweepBook(now) =>
        var dropped := Dropped(s.book, now);
        var over := s.(book := Live(s.book, now), sweeps := s.sweeps + 1);
        if dropped == [] then over.(bookLock := None, threads := s.threads[t := Swept(0)])
        else over.(threads := s.threads[t := PruneWait(dropped)])
      case PruneWait(dropped) => s.(seenLock := Some(t), threads := s.threads[t := Prune(dropped)])
      case Prune(dropped) =>
        s.(seen := s.seen - (set h <- dropped), seenLock := None, bookLock := None,
           threads := s.threads[t := Swept(|dropped|)])
      case Returned(_) => s
      case Swept(_) => s
  }

  // ---------- the invariant ----------

  /** The hashes a thread answers for: the one it reserved, or those it has yet to prune. */
  function Claims(pc: Pc): set<Hash> {
    match pc
    case Reserved(job) => {HashOf(job.order)}
    case InBook(job) => {HashOf(job.order)}
    case RollBack(job) => {HashOf(job.order)}
    case Unmark(job) => {HashOf(job.order)}
    case PruneWait(dropped) => set h <- dropped
    case Prune(dropped) => set h <- dropped
    case _ => {}
  }

  predicate Locks(s: State) {
    && (s.bookLock.Some? ==> s.bookLock.value in s.threads)
    && (s.seenLock.Some? ==> s.seenLock.value in s.threads)
    && (forall t <- s.threads :: HoldsBook(s.threads[t]) <==> s.bookLock == Some(t))
    && (forall t <- s.threads :: HoldsSeen(s.threads[t]) <==> s.seenLock == Some(t))
  }

  /** `seen` is the disjoint union of the book's hashes and the threads' claims. */
  predicate Partition(s: State) {
    && Hashes(s.book) <= s.seen
    && (forall t <- s.threads :: Claims(s.threads[t]) <= s.seen && Claims(s.threads[t]) !! Hashes(s.book))
    && (forall t <- s.threads, u <- s.threads :: t != u ==> Claims(s.threads[t]) !! Claims(s.threads[u]))
    && (forall h <- s.seen :: h in Hashes(s.book) || exists t :: t in s.threads && h in Claims(s.threads[t]))
  }

  predicate Inv(s: State) {
    Locks(s) && Partition(s) && Sorted(s.book) && |s.book| <= MAX_BOOK
  }

  lemma BookStep(s: State, step: Step)
    requires Inv(s) && Enabled(s, step)
    ensures Sorted(Next(s, step).book) && |Next(s, step).book| <= MAX_BOOK
  {
    if step.Go? && s.threads[step.t].InBook? {
      var job := s.threads[step.t].job;
      InsertedIs(s.book, BookEntry(job.order, job.now, job.pof));
    }
    if step.Go? && s.threads[step.t].SweepBook? {
      LiveIs(s.book, s.threads[step.t].now);
      DroppedIs(s.book, s.threads[step.t].now);
    }
  }

  /** A step in which one thread takes a free lock or gives up its own keeps the locks right. */
  lemma HandOver(s: State, v: State, t: Tid)
    requires Locks(s) && t in s.threads && t in v.threads && v.threads == s.threads[t := v.threads[t]]
    requires var (p, q) := (s.threads[t], v.threads[t]);
             && v.bookLock == (if HoldsBook(q) then Some(t) else if HoldsBook(p) then None else s.bookLock)
             && v.seenLock == (if HoldsSeen(q) then Some(t) else if HoldsSeen(p) then None else s.seenLock)
             && (HoldsBook(q) && !HoldsBook(p) ==> s.bookLock == None)
             && (HoldsSeen(q) && !HoldsSeen(p) ==> s.seenLock == None)
    ensures Locks(v)
  {
  }

  lemma LocksStep(s: State, step: Step)
    requires Locks(s) && Enabled(s, step)
    ensures Locks(Next(s, step))
  {
    if step.Go? {
      HandOver(s, Next(s, step), step.t);
    }
  }

  /** A step that moves hashes between the book and one thread's claim, adding only hashes
      `seen` lacked and taking out of `seen` exactly what neither holds any more. */
  lemma Repartition(s: State, v: State, t: Tid, added: set<Hash>)
    requires Partition(s) && t in s.threads && t in v.threads && v.threads == s.threads[t := v.threads[t]]
    requires added !! s.seen
    requires var (c0, c1) := (Claims(s.threads[t]), Claims(v.threads[t]));
             var (h0, h1) := (Hashes(s.book), Hashes(v.book));
             && c1 !! h1 && c1 + h1 <= c0 + h0 + added
             && v.seen == (s.seen - (c0 + h0)) + (c1 + h1)
    ensures Partition(v)
  {
    forall h | h in v.seen && h !in Hashes(v.book) ensures exists u :: u in v.threads && h in Claims(v.threads[u]) {
      if h in Claims(v.threads[t]) {
        assert t in v.threads;
      } else {
        var u :| u in s.threads && h in Claims(s.threads[u]);
        assert u in v.threads && v.threads[u] == s.threads[u];
      }
    }
  }

  lemma PartitionOnMark(s: State, t: Tid)
    requires Inv(s) && Enabled(s, Go(t)) && s.threads[t].MarkSeen?
    ensures Partition(Next(s, Go(t)))
  {
    Repartition(s, Next(s, Go(t)), t, {HashOf(s.threads[t].job.order)} - s.seen);
  }

  lemma PartitionOnInsert(s: State, t: Tid)
    requires Inv(s) && Enabled(s, Go(t)) && s.threads[t].InBook?
    ensures Partition(Next(s, Go(t)))
  {
    var job := s.threads[t].job;
    InsertedHashes(s.book, BookEntry(job.order, job.now, job.pof));
    Repartition(s, Next(s, Go(t)), t, {});
  }

  /** A sweep moves hashes from the book to the thread's claim and leaves `seen` alone. */
  lemma SweepMoves(s: State, t: Tid)
    requires Inv(s) && Enabled(s, Go(t)) && s.threads[t].SweepBook?
    ensures var v := Next(s, Go(t));
            && v.seen == s.seen && v.threads == s.threads[t := v.threads[t]] && Claims(s.threads[t]) == {}
            && Claims(v.threads[t]) !! Hashes(v.book)
            && Claims(v.threads[t]) + Hashes(v.book) == Hashes(s.book) <= s.seen
  {
    SweepSplits(s.book, s.threads[t].now);
  }

  lemma PartitionOnSweep(s: State, t: Tid)
    requires Inv(s) && Enabled(s, Go(t)) && s.threads[t].SweepBook?
    ensures Partition(Next(s, Go(t)))
  {
    SweepMoves(s, t);
    Repartition(s, Next(s, Go(t)), t, {});
  }

  lemma PartitionOnRelease(s: State, t: Tid)
    requires Inv(s) && Enabled(s, Go(t)) && (s.threads[t].Unmark? || s.threads[t].Prune?)
    ensures Partition(Next(s, Go(t)))
  {
    Repartition(s, Next(s, Go(t)), t, {});
  }

  lemma PartitionOnAcquire(s: State, t: Tid)
    requires Inv(s) && Enabled(s, Go(t)) && (WantsBook(s.threads[t]) || WantsSeen(s.threads[t]))
    ensures Partition(Next(s, Go(t)))
  {
    Repartition(s, Next(s, Go(t)), t, {});
  }

  lemma PartitionOnSpawn(s: State, t: Tid, call: Pc)
    requires Inv(s) && Enabled(s, Spawn(t, call))
    ensures Partition(Next(s, Spawn(t, call)))
  {
    var v := Next(s, Spawn(t, call));
    forall h | h in s.seen && h !in Hashes(s.book) ensures exists u :: u in v.threads && h in Claims(v.threads[u]) {
      var u :| u in s.threads && h in Claims(s.threads[u]);
      assert u in v.threads;
    }
  }

  lemma InvStep(s: State, step: Step)
    requires Inv(s) && Enabled(s, step)
    ensures Inv(Next(s, step))
  {
    BookStep(s, step);
    LocksStep(s, step);
    match step
    case Spawn(t, call) => PartitionOnSpawn(s, t, call);
    case Go(t) =>
      match s.threads[t]
      case MarkSeen(_) => PartitionOnMark(s, t);
      case InBook(_) => PartitionOnInsert(s, t);
      case SweepBook(_) => PartitionOnSweep(s, t);
      case Unmark(_) => PartitionOnRelease(s, t);
      case Prune(_) => PartitionOnRelease(s, t);
      case _ => PartitionOnAcquire(s, t);
  }

  // ---------- runs ----------

  /** What callers keep to.  `steady`: call times do not go back.  `quiet`: a sweep is called
      only when every ingest in flight was called at the sweep's own time or later. */
  datatype Policy = Policy(steady: bool, quiet: bool)

  const AnyCalls := Policy(false, false)
  const Careful := Policy(true, true)

  /** An ingest that may still insert. */
  predicate Ingesting(pc: Pc) { pc.IngestCalled? || pc.MarkSeen? || pc.Reserved? || pc.InBook? }

  predicate Permitted(p: Policy, s: State, step: Step) {
    step.Spawn? && IsCall(step.call) ==>
      && (p.steady ==> CallTime(step.call) >= s.clock)
      && (p.quiet && step.call.SweepCalled? ==>
            forall t <- s.threads :: Ingesting(s.threads[t]) ==> s.threads[t].job.now >= step.call.now)
  }

  /** The state after `steps`; None when a step is not possible or not permitted. */
  function Run(steps: seq<Step>, p: Policy): Option<State> {
    if steps == [] then Some(Empty)
    else
      var before := Run(steps[..|steps| - 1], p);
      var step := steps[|steps| - 1];
      if before.Some? && Enabled(before.value, step) && Permitted(p, before.value, step) then
        Some(Next(before.value, step))
      else None
  }

  /** RELAY INVARIANT over every interleaving: `seen` is exactly the book's hashes and the
      hashes threads in flight answer for, no hash twice, and the book stays in its bound. */
  lemma {:induction false} SeenMatchesBook(steps: seq<Step>, p: Policy)
    requires Run(steps, p).Some?
    ensures Inv(Run(steps, p).value)
  {
    if steps != [] {
      SeenMatchesBook(steps[..|steps| - 1], p);
      InvStep(Run(steps[..|steps| - 1], p).value, steps[|steps| - 1]);
    }
  }

  /** Once every call has returned, nothing is left over in `seen`, and nothing is missing. */
  lemma QuiescentSeenIsBook(steps: seq<Step>)
    requires Run(steps, AnyCalls).Some?
    requires var s := Run(steps, AnyCalls).value; forall t <- s.threads :: Over(s.threads[t])
    ensures Run(steps, AnyCalls).value.seen == Hashes(Run(steps, AnyCalls).value.book)
  {
    SeenMatchesBook(steps, AnyCalls);
  }

  /** Two locks, no deadlock: some unfinished call can always go on. */
  lemma NeverStuck(steps: seq<Step>, t: Tid) returns (u: Tid)
    requires Run(steps, AnyCalls).Some?
    requires t in Run(steps, AnyCalls).value.threads && !Over(Run(steps, AnyCalls).value.threads[t])
    ensures Enabled(Run(steps, AnyCalls).value, Go(u))
  {
    SeenMatchesBook(steps, AnyCalls);
    var s := Run(steps, AnyCalls).value;
    u := if s.seenLock.Some? then s.seenLock.value else if s.bookLock.Some? then s.bookLock.value else t;
  }

  // ---------- what gets in, and what callers are told ----------

  /** A well-formed order, alive for at most a week from `at` on, and signed by its own maker. */
  predicate Proper(order: SignedOrder, at: nat) {
    && order.body.amount > 0 && order.body.ratePico > 0
    && at < order.body.expiry <= at + 604_800
    && order.signature == SignedBy(order.body.maker, order.body)
  }

  predicate ProperBook(book: seq<BookEntry>) {
    forall e <- book :: Proper(e.order, e.lastSeen)
  }

  lemma ProperStep(s: State, step: Step)
    requires Inv(s) && Enabled(s, step) && ProperBook(s.book)
    ensures ProperBook(Next(s, step).book)
  {
    if step.Go? && s.threads[step.t].InBook? {
      var job := s.threads[step.t].job;
      InsertedIs(s.book, BookEntry(job.order, job.now, job.pof));
    }
    if step.Go? && s.threads[step.t].SweepBook? {
      LiveIs(s.book, s.threads[step.t].now);
    }
  }

  /** NOTHING IMPROPER IS LISTED.  In every reachable state each entry of the book was properly signed
      and alive at the time it came in. */
  lemma {:induction false} BookIsProper(steps: seq<Step>, p: Policy)
    requires Run(steps, p).Some?
    ensures ProperBook(Run(steps, p).value.book)
  {
    if steps != [] {
      BookIsProper(steps[..|steps| - 1], p);
      SeenMatchesBook(steps[..|steps| - 1], p);
      ProperStep(Run(steps[..|steps| - 1], p).value, steps[|steps| - 1]);
    }
  }

  predicate Spawned(steps: seq<Step>, k: nat, t: Tid, job: Job) {
    k < |steps| && steps[k] == Spawn(t, IngestCalled(job))
  }

  predicate Fits(s: State, job: Job) {
    |s.book| < 50_000 && Proper(job.order, job.now)
  }

  /** The i-th step is the one that settles what the call returns: a duplicate is one whose hash is
      in `seen` as it looks; of the others those that fit are accepted as they reach the book. */
  predicate DecidedAt(steps: seq<Step>, p: Policy, i: nat, t: Tid, job: Job, result: Ingest) {
    && i < |steps| && steps[i] == Go(t) && Run(steps[..i], p).Some?
    && var s := Run(steps[..i], p).value;
       t in s.threads
       && match result
          case Duplicate => s.threads[t] == MarkSeen(job) && HashOf(job.order) in s.seen
          case Accepted => s.threads[t] == InBook(job) && Fits(s, job)
          case Rejected => s.threads[t] == InBook(job) && !Fits(s, job)
  }

  /** Where a call has got to, and how. */
  ghost predicate Story(steps: seq<Step>, p: Policy, t: Tid, pc: Pc, k: nat, i: nat, job: Job) {
    match pc
    case IngestCalled(j) => Spawned(steps, k, t, j)
    case MarkSeen(j) => Spawned(steps, k, t, j)
    case Reserved(j) => Spawned(steps, k, t, j)
    case InBook(j) => Spawned(steps, k, t, j)
    case RollBack(j) => Spawned(steps, k, t, j) && DecidedAt(steps, p, i, t, j, Rejected)
    case Unmark(j) => Spawned(steps, k, t, j) && DecidedAt(steps, p, i, t, j, Rejected)
    case Returned(result) => Spawned(steps, k, t, job) && DecidedAt(steps, p, i, t, job, result)
    case _ => true
  }

  lemma StoryStays(steps: seq<Step>, p: Policy, t: Tid, pc: Pc, k: nat, i: nat, job: Job)
    requires steps != [] && Story(steps[..|steps| - 1], p, t, pc, k, i, job)
    ensures Story(steps, p, t, pc, k, i, job)
  {
    if i < |steps| - 1 {
      assert steps[..|steps| - 1][..i] == steps[..i];
    }
  }

  /** TOLD EXACTLY.  Over every interleaving, a finished ingest was answered `Duplicate` if its hash was
      in `seen` when it looked, and otherwise `Accepted` if, as it reached the book, there was room
      and the order was proper, and `Rejected` if not. */
  lemma {:induction false} CallStory(steps: seq<Step>, p: Policy, t: Tid) returns (k: nat, i: nat, job: Job)
    requires Run(steps, p).Some? && t in Run(steps, p).value.threads
    ensures Story(steps, p, t, Run(steps, p).value.threads[t], k, i, job)
  {
    var n := |steps| - 1;
    var s := Run(steps[..n], p).value;
    if t !in s.threads {
      k, i, job := n, n, if steps[n].call.IngestCalled? then steps[n].call.job else SomeJob;
    } else {
      k, i, job := CallStory(steps[..n], p, t);
      if steps[n] == Go(t) {
        k, i, job := StoryGoes(steps, p, t, k, i, job);
      } else {
        StoryStays(steps, p, t, s.threads[t], k, i, job);
      }
    }
  }

  const SomeJob := Job(SignedOrder(OrderBody(0, SellXno, 0, 0, 0, 0, 0), Forged(0)), 0, false)

  lemma StoryGoes(steps: seq<Step>, p: Policy, t: Tid, k0: nat, i0: nat, job0: Job)
    returns (k: nat, i: nat, job: Job)
    requires Run(steps, p).Some? && steps != [] && steps[|steps| - 1] == Go(t)
    requires t in Run(steps[..|steps| - 1], p).value.threads
    requires Story(steps[..|steps| - 1], p, t, Run(steps[..|steps| - 1], p).value.threads[t], k0, i0, job0)
    ensures Story(steps, p, t, Run(steps, p).value.threads[t], k, i, job)
  {
    var n := |steps| - 1;
    var pc := Run(steps[..n], p).value.threads[t];
    StoryStays(steps, p, t, pc, k0, i0, job0);
    k, i, job := k0, i0, job0;
    match pc
    case MarkSeen(j) => i, job := n, j;
    case InBook(j) => i, job := n, j;
    case Unmark(j) => job := j;
    case _ =>
  }

  /** An accepted order is listed as it came in, beside what was there. */
  lemma AcceptanceLists(s: State, t: Tid)
    requires Inv(s) && Enabled(s, Go(t)) && s.threads[t].InBook?
    requires Next(s, Go(t)).threads[t] == Returned(Accepted)
    ensures var (job, v) := (s.threads[t].job, Next(s, Go(t)));
            && v.seen == s.seen && |v.book| == |s.book| + 1
            && forall e :: e in v.book <==> e == BookEntry(job.order, job.now, job.pof) || e in s.book
  {
    var job := s.threads[t].job;
    InsertedIs(s.book, BookEntry(job.order, job.now, job.pof));
    assert HashOf(job.order) in Claims(s.threads[t]);
  }

  /** A refused order leaves no trace: its hash is out of `seen` again, and the book untouched. */
  lemma RejectionRestores(s: State, t: Tid)
    requires Inv(s) && Enabled(s, Go(t)) && s.threads[t].Unmark?
    ensures var (h, v) := (HashOf(s.threads[t].job.order), Next(s, Go(t)));
            && v.threads[t] == Returned(Rejected) && v.book == s.book
            && h in s.seen && h !in v.seen && v.seen + {h} == s.seen
  {
    assert HashOf(s.threads[t].job.order) in Claims(s.threads[t]);
  }

  // ---------- at most one acceptance ----------

  predicate NoRepeats(hs: seq<Hash>) {
    forall i, j :: 0 <= i < j < |hs| ==> hs[i] != hs[j]
  }

  /** An accepted order is in the book, or it had expired by some sweep called so far; and
      whatever may still insert was called no earlier than that. */
  predicate AcceptedOnce(s: State) {
    && NoRepeats(s.accepted)
    && (forall h <- s.accepted :: h in Hashes(s.book) || h.body.expiry <= s.swept)
    && (forall t <- s.threads :: Ingesting(s.threads[t]) ==> s.threads[t].job.now >= s.swept)
    && (forall t <- s.threads :: s.threads[t].SweepCalled? || s.threads[t].SweepBook? ==> s.threads[t].now <= s.swept)
    && s.swept <= s.clock
  }

  lemma OnceOnInsert(s: State, t: Tid)
    requires Inv(s) && AcceptedOnce(s) && Enabled(s, Go(t)) && s.threads[t].InBook?
    ensures AcceptedOnce(Next(s, Go(t)))
  {
    var job := s.threads[t].job;
    InsertedHashes(s.book, BookEntry(job.order, job.now, job.pof));
    assert HashOf(job.order) in Claims(s.threads[t]);
  }

  lemma OnceOnSweep(s: State, t: Tid)
    requires Inv(s) && AcceptedOnce(s) && Enabled(s, Go(t)) && s.threads[t].SweepBook?
    ensures AcceptedOnce(Next(s, Go(t)))
  {
    SweepSplits(s.book, s.threads[t].now);
    DroppedIs(s.book, s.threads[t].now);
  }

  lemma OnceOnSpawn(s: State, t: Tid, call: Pc)
    requires AcceptedOnce(s) && Enabled(s, Spawn(t, call)) && Permitted(Careful, s, Spawn(t, call))
    ensures AcceptedOnce(Next(s, Spawn(t, call)))
  {
  }

  lemma OnceElsewhere(s: State, t: Tid)
    requires AcceptedOnce(s) && Enabled(s, Go(t)) && !s.threads[t].InBook? && !s.threads[t].SweepBook?
    ensures AcceptedOnce(Next(s, Go(t)))
  {
    var v := Next(s, Go(t));
    assert v.book == s.book && v.accepted == s.accepted && v.threads == s.threads[t := v.threads[t]];
  }

  lemma OnceStep(s: State, step: Step)
    requires Inv(s) && AcceptedOnce(s) && Enabled(s, step) && Permitted(Careful, s, step)
    ensures AcceptedOnce(Next(s, step))
  {
    match step
    case Spawn(t, call) => OnceOnSpawn(s, t, call);
    case Go(t) =>
      if s.threads[t].InBook? {
        OnceOnInsert(s, t);
      } else if s.threads[t].SweepBook? {
        OnceOnSweep(s, t);
      } else {
        OnceElsewhere(s, t);
      }
  }

  /** AT MOST ONE ACCEPTANCE.  With careful callers no order is accepted, and so flooded
      onward, twice: not by racing ingests, not across expiry sweeps. */
  lemma {:induction false} AtMostOnce(steps: seq<Step>)
    requires Run(steps, Careful).Some?
    ensures AcceptedOnce(Run(steps, Careful).value)
  {
    if steps != [] {
      var before := steps[..|steps| - 1];
      AtMostOnce(before);
      SeenMatchesBook(before, Careful);
      OnceStep(Run(before, Careful).value, steps[|steps| - 1]);
    }
  }

  // ---------- whatever callers do ----------

  /** Each time an order was accepted, but for one while it is in the book, a sweep made room. */
  predicate SweptBetween(s: State, h: Hash) {
    multiset(s.accepted)[h] <= s.sweeps + if h in Hashes(s.book) then 1 else 0
  }

  lemma SweptBetweenStep(s: State, step: Step, h: Hash)
    requires Inv(s) && Enabled(s, step) && SweptBetween(s, h)
    ensures SweptBetween(Next(s, step), h)
  {
    if step.Go? && s.threads[step.t].InBook? {
      var job := s.threads[step.t].job;
      InsertedHashes(s.book, BookEntry(job.order, job.now, job.pof));
      assert HashOf(job.order) in Claims(s.threads[step.t]);
    }
  }

  /** With callers that keep to nothing, an order is still accepted at most once more than
      the book was swept, so without sweeps at most once. */
  lemma {:induction false} EachRepeatCostsASweep(steps: seq<Step>, p: Policy, h: Hash)
    requires Run(steps, p).Some?
    ensures multiset(Run(steps, p).value.accepted)[h] <= 1 + Run(steps, p).value.sweeps
    ensures SweptBetween(Run(steps, p).value, h)
  {
    if steps != [] {
      var before := steps[..|steps| - 1];
      EachRepeatCostsASweep(before, p, h);
      SeenMatchesBook(before, p);
      SweptBetweenStep(Run(before, p).value, steps[|steps| - 1], h);
    }
  }

  // ---------- neither condition can go ----------

  lemma Extend(p: Policy, steps: seq<Step>, s: State, step: Step) returns (longer: seq<Step>, v: State)
    requires Run(steps, p) == Some(s) && Enabled(s, step) && Permitted(p, s, step)
    ensures Run(longer, p) == Some(v) && v == Next(s, step)
  {
    longer, v := steps + [step], Next(s, step);
    assert longer[..|longer| - 1] == steps;
  }

  predicate Idle(s: State, book: seq<BookEntry>) {
    s.bookLock == None && s.seenLock == None && s.book == book && s.seen == Hashes(book)
  }

  /** An ingest already called goes through on an idle, empty relay. */
  lemma MarkAlone(p: Policy, steps: seq<Step>, s: State, t: Tid, job: Job) returns (longer: seq<Step>, v: State)
    requires Run(steps, p) == Some(s) && Idle(s, []) && t in s.threads && s.threads[t] == IngestCalled(job)
    ensures Run(longer, p) == Some(v)
    ensures v == s.(seen := {HashOf(job.order)}, threads := s.threads[t := Reserved(job)])
  {
    longer, v := Extend(p, steps, s, Go(t));
    assert v.threads[t] == MarkSeen(job);
    longer, v := Extend(p, longer, v, Go(t));
    assert v.threads == s.threads[t := Reserved(job)];
  }

  lemma IngestAlone(p: Policy, steps: seq<Step>, s: State, t: Tid, job: Job) returns (longer: seq<Step>, v: State)
    requires Run(steps, p) == Some(s) && Idle(s, []) && t in s.threads && s.threads[t] == IngestCalled(job)
    requires Verifies(job.order, job.now)
    ensures Run(longer, p) == Some(v) && Idle(v, [BookEntry(job.order, job.now, job.pof)])
    ensures v.threads == s.threads[t := Returned(Accepted)] && v.clock == s.clock
    ensures v.accepted == s.accepted + [HashOf(job.order)]
  {
    longer, v := MarkAlone(p, steps, s, t, job);
    longer, v := Extend(p, longer, v, Go(t));
    assert v.threads[t] == InBook(job);
    longer, v := Extend(p, longer, v, Go(t));
    InsertedHashes([], BookEntry(job.order, job.now, job.pof));
  }

  lemma DropAlone(p: Policy, steps: seq<Step>, s: State, t: Tid, e: BookEntry, now: nat)
    returns (longer: seq<Step>, v: State)
    requires Run(steps, p) == Some(s) && Idle(s, [e]) && !LiveAt(e, now)
    requires t in s.threads && s.threads[t] == SweepCalled(now)
    ensures Run(longer, p) == Some(v)
    ensures v == s.(book := [], bookLock := Some(t), sweeps := s.sweeps + 1,
                    threads := s.threads[t := PruneWait([Key(e)])])
  {
    longer, v := Extend(p, steps, s, Go(t));
    assert v.threads[t] == SweepBook(now);
    assert Dropped([e], now) == [Key(e)] && Live([e], now) == [] by { assert [e][..0] == []; }
    longer, v := Extend(p, longer, v, Go(t));
    assert v.threads == s.threads[t := PruneWait([Key(e)])];
  }

  lemma SweepAlone(p: Policy, steps: seq<Step>, s: State, t: Tid, e: BookEntry, now: nat)
    returns (longer: seq<Step>, v: State)
    requires Run(steps, p) == Some(s) && Idle(s, [e]) && !LiveAt(e, now)
    requires t in s.threads && s.threads[t] == SweepCalled(now)
    ensures Run(longer, p) == Some(v) && Idle(v, [])
    ensures v.threads == s.threads[t := Swept(1)] && v.clock == s.clock && v.accepted == s.accepted
  {
    longer, v := DropAlone(p, steps, s, t, e, now);
    longer, v := Extend(p, longer, v, Go(t));
    assert v.threads[t] == Prune([Key(e)]);
    longer, v := Extend(p, longer, v, Go(t));
    assert v.threads == s.threads[t := Swept(1)];
  }

  const Short := OrderBody(1, SellXno, 1, 1, 10, 0, 0)  // expires at 10

  function JobAt(now: nat): Job { Job(SignedOrder(Short, SignedBy(1, Short)), now, false) }

  lemma AcceptAt5(p: Policy) returns (steps: seq<Step>, s: State)
    ensures Run(steps, p) == Some(s) && Idle(s, [BookEntry(JobAt(5).order, 5, false)])
    ensures s.threads == map[0 := Returned(Accepted)] && s.clock == 5 && s.accepted == [Digest(Short)]
  {
    steps, s := Extend(p, [], Empty, Spawn(0, IngestCalled(JobAt(5))));
    steps, s := IngestAlone(p, steps, s, 0, JobAt(5));
  }

  /** With a time going back, an order swept as expired is accepted and flooded again. */
  lemma RollbackRefloods(p: Policy) returns (steps: seq<Step>, s: State)
    requires !p.steady
    ensures Run(steps, p) == Some(s) && s.accepted == [Digest(Short), Digest(Short)]
  {
    steps, s := AcceptAt5(p);
    steps, s := Extend(p, steps, s, Spawn(1, SweepCalled(10)));
    steps, s := SweepAlone(p, steps, s, 1, BookEntry(JobAt(5).order, 5, false), 10);
    steps, s := Extend(p, steps, s, Spawn(2, IngestCalled(JobAt(5))));
    steps, s := IngestAlone(p, steps, s, 2, JobAt(5));
  }

  /** With no time going back either: an ingest called at 9 waits for its lock while a sweep
      called at 10 drops and prunes the same order, and is then accepted. */
  lemma WaitingCallRefloods(p: Policy) returns (steps: seq<Step>, s: State)
    requires !p.quiet
    ensures Run(steps, p) == Some(s) && s.accepted == [Digest(Short), Digest(Short)]
  {
    steps, s := AcceptAt5(p);
    steps, s := Extend(p, steps, s, Spawn(1, IngestCalled(JobAt(9))));
    steps, s := Extend(p, steps, s, Spawn(2, SweepCalled(10)));
    steps, s := SweepAlone(p, steps, s, 2, BookEntry(JobAt(5).order, 5, false), 10);
    steps, s := IngestAlone(p, steps, s, 1, JobAt(9));
  }

  ghost predicate AlwaysOnce(p: Policy) {
    forall steps :: Run(steps, p).Some? ==> NoRepeats(Run(steps, p).value.accepted)
  }

  /** EXACTLY.  No order is ever accepted twice if and only if call times are steady and sweeps
      are called quietly; a steady clock alone is not enough. */
  lemma OnceExactly(p: Policy)
    ensures AlwaysOnce(p) <==> p.steady && p.quiet
  {
    if p == Careful {
      forall steps | Run(steps, p).Some? ensures NoRepeats(Run(steps, p).value.accepted) {
        AtMostOnce(steps);
      }
    } else {
      var steps, s;
      if !p.steady {
        steps, s := RollbackRefloods(p);
      } else {
        steps, s := WaitingCallRefloods(p);
      }
      assert s.accepted[0] == s.accepted[1];
    }
  }
}
