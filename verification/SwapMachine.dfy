/** The deterministic per-chunk swap machine of web/swap_machine.js. */
module SwapMachine {
  import opened Common
  import opened Schedule

  datatype Role = XnoSeller | XmrSeller

  datatype Stage =
    | AwaitBonds | AwaitXmrLock | AwaitPresign | AwaitGuardConfirm | AwaitXnoClaim | AwaitXmrSweep
    | Completed | Aborted

  datatype Event =
    | BothBondsConfirmed
    | XmrLockObserved(chunk: nat, confirmations: nat)
    | PresignDelivered(chunk: nat)
    | GuardConfirmed(chunk: nat)
    | XnoClaimSettled(chunk: nat)
    | XmrSweepConfirmed(chunk: nat)
    | Abort
    | LockReorged(chunk: nat)

  datatype Action =
    | LockXmrChunk(chunk: nat, amount: nat)
    | DeliverPresign(chunk: nat, amount: nat)
    | BroadcastGuard(chunk: nat)
    | CompleteAndBroadcastClaim(chunk: nat)
    | SweepXmr(chunk: nat)
    | TriggerRefundBackstop(chunk: nat)
    | ReturnBonds

  datatype MachineError = InvariantViolated | Terminal | UnexpectedEvent

  /** The machine's fields as a value. */
  datatype Machine = Machine(
    role: Role, chunks: seq<nat>, maturity: nat, stage: Stage, chunk: nat,
    xnoSettled: nat, xmrSettled: nat, xmrInFlight: nat)

  function Start(role: Role, chunks: seq<nat>, maturity: nat): Machine {
    Machine(role, chunks, maturity, AwaitBonds, 0, 0, 0, 0)
  }

  function AbsDiff(a: nat, b: nat): nat { if a > b then a - b else b - a }
  function SatSub(a: nat, b: nat): nat { if a > b then a - b else 0 }

  /** `checkInvariant`: the settled values differ by at most one chunk. */
  predicate WithinOneChunk(m: Machine) {
    && AbsDiff(m.xnoSettled, m.xmrSettled + m.xmrInFlight) <= Max(m.chunks)
    && m.xmrInFlight <= Max(m.chunks)
  }

  function WorstCaseLoss(m: Machine): nat {
    if m.role == XnoSeller then SatSub(m.xnoSettled, m.xmrSettled)
    else SatSub(m.xmrSettled + m.xmrInFlight, m.xnoSettled)
  }

  function AbortActions(m: Machine): seq<Action> {
    if m.role == XmrSeller && m.xmrInFlight > 0
       && m.stage in {AwaitXmrLock, AwaitPresign, AwaitGuardConfirm, AwaitXnoClaim} then
      [TriggerRefundBackstop(m.chunk)]
    else if m.role == XnoSeller && m.stage in {AwaitXnoClaim, AwaitXmrSweep} then
      [SweepXmr(m.chunk)]
    else []
  }

  function ChunkAt(m: Machine, i: nat): nat
    requires m.chunks != []
  {
    m.chunks[if i < |m.chunks| then i else |m.chunks| - 1]
  }

  function For(m: Machine, who: Role, action: Action): seq<Action> {
    if m.role == who then [action] else []
  }

  datatype Reply = Reply(next: Machine, result: Result<seq<Action>, MachineError>)

  function Checked(m: Machine, actions: seq<Action>): Reply {
    if WithinOneChunk(m) then Reply(m, Ok(actions)) else Reply(m.(stage := Aborted), Err(InvariantViolated))
  }

  datatype Move = Move(next: Machine, actions: seq<Action>)

  /** The stage table: the event each stage waits for, what it changes and what it asks for. */
  function Advance(m: Machine, event: Event): Option<Move>
    requires m.chunks != []
  {
    var amount := ChunkAt(m, m.chunk);
    match (m.stage, event)
    case (AwaitBonds, BothBondsConfirmed) =>
      Some(Move(m.(stage := AwaitXmrLock), For(m, XmrSeller, LockXmrChunk(m.chunk, amount))))
    case (AwaitXmrLock, XmrLockObserved(c, confirmations)) =>
      if c != m.chunk then None
      else if confirmations >= m.maturity then
        Some(Move(m.(xmrInFlight := amount, stage := AwaitPresign), For(m, XnoSeller, DeliverPresign(c, amount))))
      else Some(Move(m.(xmrInFlight := amount), []))
    case (AwaitPresign, PresignDelivered(c)) =>
      if c != m.chunk then None else Some(Move(m.(stage := AwaitGuardConfirm), For(m, XmrSeller, BroadcastGuard(c))))
    case (AwaitGuardConfirm, GuardConfirmed(c)) =>
      if c != m.chunk then None
      else Some(Move(m.(stage := AwaitXnoClaim), For(m, XmrSeller, CompleteAndBroadcastClaim(c))))
    case (AwaitXnoClaim, XnoClaimSettled(c)) =>
      if c != m.chunk then None
      else Some(Move(m.(xnoSettled := m.xnoSettled + amount, stage := AwaitXmrSweep), For(m, XnoSeller, SweepXmr(c))))
    case (AwaitXmrSweep, XmrSweepConfirmed(c)) =>
      if c != m.chunk then None
      else
        var swept := m.(xmrSettled := m.xmrSettled + m.xmrInFlight, xmrInFlight := 0, chunk := m.chunk + 1);
        if swept.chunk == |m.chunks| then Some(Move(swept.(stage := Completed), [ReturnBonds]))
        else
          var next := LockXmrChunk(swept.chunk, ChunkAt(m, swept.chunk));
          Some(Move(swept.(stage := AwaitXmrLock), For(m, XmrSeller, next)))
    case _ => None
  }

  predicate Finished(m: Machine) { m.stage in {Completed, Aborted} }

  predicate Aborts(m: Machine, event: Event) {
    event == Abort || (event == LockReorged(m.chunk) && m.stage in {AwaitPresign, AwaitGuardConfirm, AwaitXnoClaim})
  }

  /** What `handle` does to the machine and replies, one event at a time. */
  function Handled(m: Machine, event: Event): Reply {
    if m.chunks == [] then Reply(m, Err(InvariantViolated))
    else if Finished(m) then Reply(m, Err(Terminal))
    else if Aborts(m, event) then Checked(m.(stage := Aborted), AbortActions(m))
    else
      match Advance(m, event)
      case None => Reply(m, Err(UnexpectedEvent))
      case Some(move) => Checked(move.next, move.actions)
  }

  // ---------- accounting ----------

  /** What the totals are at a stage: finished chunks count on both sides, the current
      chunk counts as paid in XNO exactly while its sweep is pending, and it is in flight
      from the mature lock until that sweep. */
  predicate AccountsAt(m: Machine, stage: Stage) {
    && m.chunk <= |m.chunks|
    && (stage == Completed <==> m.chunk == |m.chunks|)
    && m.xmrSettled == Sum(m.chunks[..m.chunk])
    && m.xnoSettled == m.xmrSettled + (if stage == AwaitXmrSweep then m.chunks[m.chunk] else 0)
    && match stage
       case AwaitBonds => m.xmrInFlight == 0 && m.chunk == 0
       case AwaitXmrLock => m.xmrInFlight in {0, m.chunks[m.chunk]}
       case AwaitPresign | AwaitGuardConfirm | AwaitXnoClaim | AwaitXmrSweep => m.xmrInFlight == m.chunks[m.chunk]
       case Completed => m.xmrInFlight == 0
       case Aborted => false
  }

  /** An aborted machine keeps the accounts of the stage it was aborted in. */
  ghost predicate Accounts(m: Machine) {
    if m.stage == Aborted then exists stage :: stage != Completed && AccountsAt(m, stage) else AccountsAt(m, m.stage)
  }

  lemma SumNext(chunks: seq<nat>, k: nat)
    requires k < |chunks|
    ensures Sum(chunks[..k + 1]) == Sum(chunks[..k]) + chunks[k]
  {
    assert chunks[..k + 1][..k] == chunks[..k];
  }

  lemma AccountsWithin(m: Machine, stage: Stage)
    requires AccountsAt(m, stage)
    ensures WithinOneChunk(m)
  {
  }

  lemma AdvanceKeepsAccounts(m: Machine, event: Event)
    requires m.chunks != [] && !Finished(m) && AccountsAt(m, m.stage)
    ensures Advance(m, event).Some? ==> AccountsAt(Advance(m, event).value.next, Advance(m, event).value.next.stage)
  {
    SumNext(m.chunks, m.chunk);
  }

  lemma AccountsStep(m: Machine, event: Event)
    requires m.chunks != [] && Accounts(m)
    ensures Accounts(Handled(m, event).next)
    ensures Handled(m, event).result != Err(InvariantViolated)
    ensures Handled(m, event).result.Err? ==> Handled(m, event).next == m
  {
    if !Finished(m) {
      if Aborts(m, event) {
        var v := m.(stage := Aborted);
        assert AccountsAt(v, m.stage);
        AccountsWithin(v, m.stage);
      } else if Advance(m, event).Some? {
        AdvanceKeepsAccounts(m, event);
        var v := Advance(m, event).value.next;
        AccountsWithin(v, v.stage);
      }
    }
  }

  // ---------- runs ----------

  function Run(m: Machine, events: seq<Event>): Machine {
    if events == [] then m else Handled(Run(m, events[..|events| - 1]), events[|events| - 1]).next
  }

  /** The machine before event i, and the reply to it. */
  function Before(m: Machine, events: seq<Event>, i: nat): Machine
    requires i <= |events|
  {
    Run(m, events[..i])
  }

  function ReplyTo(m: Machine, events: seq<Event>, i: nat): Result<seq<Action>, MachineError>
    requires i < |events|
  {
    Handled(Before(m, events, i), events[i]).result
  }

  lemma BeforeNext(m: Machine, events: seq<Event>, i: nat)
    requires i < |events|
    ensures Before(m, events, i + 1) == Handled(Before(m, events, i), events[i]).next
  {
    assert events[..i + 1][..i] == events[..i];
  }

  lemma HandledKeepsTerms(m: Machine, event: Event)
    ensures var v := Handled(m, event).next; v.role == m.role && v.chunks == m.chunks && v.maturity == m.maturity
  {
  }

  /** EXACT ACCOUNTING over every event sequence, and the invariant throw is unreachable. */
  lemma {:induction false} ExactAccounting(role: Role, chunks: seq<nat>, maturity: nat, events: seq<Event>)
    requires chunks != []
    ensures var m := Run(Start(role, chunks, maturity), events);
            m.role == role && m.chunks == chunks && m.maturity == maturity && Accounts(m)
    ensures forall e :: Handled(Run(Start(role, chunks, maturity), events), e).result != Err(InvariantViolated)
  {
    var start := Start(role, chunks, maturity);
    if events != [] {
      var m := Run(start, events[..|events| - 1]);
      ExactAccounting(role, chunks, maturity, events[..|events| - 1]);
      HandledKeepsTerms(m, events[|events| - 1]);
      AccountsStep(m, events[|events| - 1]);
    }
    var m := Run(start, events);
    forall e ensures Handled(m, e).result != Err(InvariantViolated) {
      AccountsStep(m, e);
    }
  }

  /** A completed swap has settled the whole schedule on both sides. */
  lemma CompletedSettlesAll(role: Role, chunks: seq<nat>, maturity: nat, events: seq<Event>)
    requires chunks != [] && Run(Start(role, chunks, maturity), events).stage == Completed
    ensures var m := Run(Start(role, chunks, maturity), events);
            m.xnoSettled == Sum(chunks) && m.xmrSettled == Sum(chunks) && m.xmrInFlight == 0
  {
    ExactAccounting(role, chunks, maturity, events);
    assert chunks[..|chunks|] == chunks;
  }

  lemma AdvanceIgnoresRole(m: Machine, event: Event, role: Role)
    requires m.chunks != []
    ensures Advance(m, event).Some? <==> Advance(m.(role := role), event).Some?
    ensures Advance(m, event).Some? ==>
            Advance(m.(role := role), event).value.next == Advance(m, event).value.next.(role := role)
  {
  }

  lemma HandledIgnoresRole(m: Machine, event: Event, role: Role)
    ensures Handled(m.(role := role), event).next == Handled(m, event).next.(role := role)
  {
    if m.chunks != [] {
      AdvanceIgnoresRole(m, event, role);
    }
  }

  /** The two roles' machines, fed the same events, never differ in anything but the role. */
  lemma {:induction false} RolesAgree(chunks: seq<nat>, maturity: nat, events: seq<Event>)
    ensures Run(Start(XmrSeller, chunks, maturity), events) ==
            Run(Start(XnoSeller, chunks, maturity), events).(role := XmrSeller)
  {
    if events != [] {
      var before := events[..|events| - 1];
      RolesAgree(chunks, maturity, before);
      HandledIgnoresRole(Run(Start(XnoSeller, chunks, maturity), before), events[|events| - 1], XmrSeller);
    }
  }

  /** ONE CHUNK AT RISK, ON ONE SIDE.  The two worst-case losses sum to what is in flight,
      never both positive, never more than the largest chunk. */
  lemma LossesAreExclusive(chunks: seq<nat>, maturity: nat, events: seq<Event>)
    requires chunks != []
    ensures var xno := Run(Start(XnoSeller, chunks, maturity), events);
            var xmr := Run(Start(XmrSeller, chunks, maturity), events);
            && (WorstCaseLoss(xno) == 0 || WorstCaseLoss(xmr) == 0)
            && WorstCaseLoss(xno) + WorstCaseLoss(xmr) == xno.xmrInFlight <= Max(chunks)
  {
    ExactAccounting(XnoSeller, chunks, maturity, events);
    RolesAgree(chunks, maturity, events);
    var m := Run(Start(XnoSeller, chunks, maturity), events);
    var stage :| AccountsAt(m, stage);
    AccountsWithin(m, stage);
  }

  /** ABORT COVERAGE.  Whenever an abort or a reorg ends the swap, a party that stands to lose
      is told how to get its value back: B its refund, A its sweep. */
  lemma AbortCovered(role: Role, chunks: seq<nat>, maturity: nat, events: seq<Event>, last: Event)
    requires chunks != []
    ensures var m := Run(Start(role, chunks, maturity), events);
            var reply := Handled(m, last);
            !Finished(m) && Aborts(m, last) ==>
              && reply.next.stage == Aborted && reply.result.Ok?
              && (WorstCaseLoss(m) > 0 ==>
                    var action := if role == XmrSeller then TriggerRefundBackstop(m.chunk) else SweepXmr(m.chunk);
                    reply.result.value == [action])
  {
    ExactAccounting(role, chunks, maturity, events);
    AccountsStep(Run(Start(role, chunks, maturity), events), last);
  }

  // ---------- progress ----------

  /** How far along the schedule a machine is: five stages a chunk, after the bonds. */
  function Rank(m: Machine): nat {
    var n := |m.chunks|;
    match m.stage
    case AwaitBonds => 0
    case AwaitXmrLock => 5 * m.chunk + 1
    case AwaitPresign => 5 * m.chunk + 2
    case AwaitGuardConfirm => 5 * m.chunk + 3
    case AwaitXnoClaim => 5 * m.chunk + 4
    case AwaitXmrSweep => 5 * m.chunk + 5
    case Completed => 5 * n + 1
    case Aborted => 5 * n + 1
  }

  predicate ShallowLock(m: Machine, event: Event) {
    event.XmrLockObserved? && event.confirmations < m.maturity
  }

  /** An accepted event other than an abort, a reorg or a lock not deep enough yet. */
  predicate Progress(m: Machine, event: Event) {
    Handled(m, event).result.Ok? && event != Abort && !event.LockReorged? && !ShallowLock(m, event)
  }

  lemma RankStep(m: Machine, event: Event)
    requires m.chunks != [] && Accounts(m)
    ensures Rank(Handled(m, event).next) >= Rank(m)
    ensures Rank(m) <= 5 * |m.chunks| + 1
    ensures Progress(m, event) ==> Rank(Handled(m, event).next) == Rank(m) + 1
  {
    AccountsStep(m, event);
  }

  function ProgressCount(m: Machine, events: seq<Event>): nat {
    if events == [] then 0
    else
      ProgressCount(m, events[..|events| - 1])
      + if Progress(Run(m, events[..|events| - 1]), events[|events| - 1]) then 1 else 0
  }

  /** TERMINATION.  A swap of n chunks makes progress at most 5n + 1 times, whatever arrives. */
  lemma {:induction false} ProgressIsBounded(role: Role, chunks: seq<nat>, maturity: nat, events: seq<Event>)
    requires chunks != []
    ensures var start := Start(role, chunks, maturity);
            ProgressCount(start, events) <= Rank(Run(start, events)) <= 5 * |chunks| + 1
  {
    var start := Start(role, chunks, maturity);
    ExactAccounting(role, chunks, maturity, events);
    RankStep(Run(start, events), Abort);
    if events != [] {
      var before := events[..|events| - 1];
      ProgressIsBounded(role, chunks, maturity, before);
      ExactAccounting(role, chunks, maturity, before);
      RankStep(Run(start, before), events[|events| - 1]);
    }
  }

  lemma {:induction false} RankGrows(role: Role, chunks: seq<nat>, maturity: nat, events: seq<Event>, i: nat, j: nat)
    requires chunks != [] && i <= j <= |events|
    ensures var start := Start(role, chunks, maturity);
            Rank(Before(start, events, i)) <= Rank(Before(start, events, j))
  {
    if i < j {
      var start := Start(role, chunks, maturity);
      RankGrows(role, chunks, maturity, events, i, j - 1);
      BeforeNext(start, events, j - 1);
      ExactAccounting(role, chunks, maturity, events[..j - 1]);
      RankStep(Before(start, events, j - 1), events[j - 1]);
    }
  }

  // ---------- confirm before reveal ----------

  predicate Emits(r: Result<seq<Action>, MachineError>, action: Action) {
    r.Ok? && action in r.value
  }

  predicate At(m: Machine, stage: Stage, c: nat) {
    m.stage == stage && m.chunk == c
  }

  /** The event that brought the machine to the given stage of chunk c. */
  predicate Opens(m: Machine, event: Event, stage: Stage, c: nat) {
    match stage
    case AwaitPresign =>
      At(m, AwaitXmrLock, c) && event.XmrLockObserved? && event.chunk == c && event.confirmations >= m.maturity
    case AwaitGuardConfirm => At(m, AwaitPresign, c) && event == PresignDelivered(c)
    case AwaitXnoClaim => At(m, AwaitGuardConfirm, c) && event == GuardConfirmed(c)
    case _ => false
  }

  lemma EntryStep(m: Machine, event: Event, stage: Stage, c: nat)
    requires m.chunks != [] && stage in {AwaitPresign, AwaitGuardConfirm, AwaitXnoClaim}
    requires At(Handled(m, event).next, stage, c) && !At(m, stage, c)
    ensures Opens(m, event, stage, c)
  {
  }

  /** A machine waiting at one of the middle stages got there by that stage's one event. */
  lemma {:induction false} EnteredBy(role: Role, chunks: seq<nat>, maturity: nat, events: seq<Event>,
                                     i: nat, stage: Stage, c: nat) returns (k: nat)
    requires chunks != [] && i <= |events| && stage in {AwaitPresign, AwaitGuardConfirm, AwaitXnoClaim}
    requires At(Before(Start(role, chunks, maturity), events, i), stage, c)
    ensures k < i
    ensures var m := Before(Start(role, chunks, maturity), events, k);
            Opens(m, events[k], stage, c) && Handled(m, events[k]).result.Ok?
  {
    var start := Start(role, chunks, maturity);
    BeforeNext(start, events, i - 1);
    ExactAccounting(role, chunks, maturity, events[..i - 1]);
    AccountsStep(Before(start, events, i - 1), events[i - 1]);
    if At(Before(start, events, i - 1), stage, c) {
      k := EnteredBy(role, chunks, maturity, events, i - 1, stage, c);
    } else {
      k := i - 1;
      EntryStep(Before(start, events, k), events[k], stage, c);
    }
  }

  /** Where a claim of chunk c is emitted. */
  lemma EmittedWhere(m: Machine, event: Event, c: nat)
    requires Emits(Handled(m, event).result, CompleteAndBroadcastClaim(c))
    ensures m.chunks != [] && m.role == XmrSeller && At(m, AwaitGuardConfirm, c) && event == GuardConfirmed(c)
  {
  }

  /** CONFIRM BEFORE REVEAL.  A claim of chunk c, which publishes the secret, is emitted only
      on the guard confirmation of c, after the pre-sign of c, after a mature lock of c, all
      accepted, in that order. */
  lemma ConfirmBeforeReveal(role: Role, chunks: seq<nat>, maturity: nat, events: seq<Event>, g: nat, c: nat)
    returns (l: nat, p: nat)
    requires chunks != [] && g < |events|
    requires Emits(ReplyTo(Start(role, chunks, maturity), events, g), CompleteAndBroadcastClaim(c))
    ensures l < p < g
    ensures events[g] == GuardConfirmed(c) && events[p] == PresignDelivered(c)
    ensures events[l].XmrLockObserved? && events[l].chunk == c && events[l].confirmations >= maturity
    ensures var start := Start(role, chunks, maturity); ReplyTo(start, events, l).Ok? && ReplyTo(start, events, p).Ok?
  {
    var start := Start(role, chunks, maturity);
    EmittedWhere(Before(start, events, g), events[g], c);
    p := EnteredBy(role, chunks, maturity, events, g, AwaitGuardConfirm, c);
    l := EnteredBy(role, chunks, maturity, events, p, AwaitPresign, c);
    ExactAccounting(role, chunks, maturity, events[..l]);
  }

  /** A claim of a chunk is emitted at most once. */
  lemma RevealedOnce(role: Role, chunks: seq<nat>, maturity: nat, events: seq<Event>, i: nat, j: nat, c: nat)
    requires chunks != [] && i < j < |events|
    requires Emits(ReplyTo(Start(role, chunks, maturity), events, i), CompleteAndBroadcastClaim(c))
    ensures !Emits(ReplyTo(Start(role, chunks, maturity), events, j), CompleteAndBroadcastClaim(c))
  {
    var start := Start(role, chunks, maturity);
    var m := Before(start, events, i);
    EmittedWhere(m, events[i], c);
    BeforeNext(start, events, i);
    RankGrows(role, chunks, maturity, events, i + 1, j);
    ExactAccounting(role, chunks, maturity, events[..i]);
    RankStep(m, events[i]);
    if Emits(ReplyTo(start, events, j), CompleteAndBroadcastClaim(c)) {
      EmittedWhere(Before(start, events, j), events[j], c);
    }
  }

  // ---------- what each side is told to do ----------

  /** All that `handle` asked for over a trace, in order. */
  function Log(m: Machine, events: seq<Event>): seq<Action> {
    if events == [] then []
    else
      var last := Handled(Run(m, events[..|events| - 1]), events[|events| - 1]).result;
      Log(m, events[..|events| - 1]) + if last.Ok? then last.value else []
  }

  /** What a side does for chunk c: B locks that chunk's amount, posts the guard and claims; A
      delivers its pre-signature over that amount and sweeps. */
  function RoundOf(role: Role, chunks: seq<nat>, c: nat): seq<Action>
    requires c < |chunks|
  {
    match role
    case XmrSeller => [LockXmrChunk(c, chunks[c]), BroadcastGuard(c), CompleteAndBroadcastClaim(c)]
    case XnoSeller => [DeliverPresign(c, chunks[c]), SweepXmr(c)]
  }

  /** The first k chunks, each once and in order. */
  function Rounds(role: Role, chunks: seq<nat>, k: nat): seq<Action>
    requires k <= |chunks|
  {
    if k == 0 then [] else Rounds(role, chunks, k - 1) + RoundOf(role, chunks, k - 1)
  }

  /** How many actions of the current chunk a side has been told by a stage. */
  function ToldBy(role: Role, stage: Stage): nat {
    match (role, stage)
    case (XmrSeller, AwaitXmrLock) => 1
    case (XmrSeller, AwaitPresign) => 1
    case (XmrSeller, AwaitGuardConfirm) => 2
    case (XmrSeller, AwaitXnoClaim) => 3
    case (XmrSeller, AwaitXmrSweep) => 3
    case (XnoSeller, AwaitPresign) => 1
    case (XnoSeller, AwaitGuardConfirm) => 1
    case (XnoSeller, AwaitXnoClaim) => 1
    case (XnoSeller, AwaitXmrSweep) => 2
    case _ => 0
  }

  function Script(role: Role, chunks: seq<nat>, stage: Stage, c: nat): seq<Action>
    requires c <= |chunks| && (c == |chunks| ==> stage == Completed)
  {
    if stage == Completed then Rounds(role, chunks, c) + [ReturnBonds]
    else Rounds(role, chunks, c) + RoundOf(role, chunks, c)[..ToldBy(role, stage)]
  }

  predicate Recovery(action: Action, c: nat) {
    action in {TriggerRefundBackstop(c), SweepXmr(c)}
  }

  /** A machine has asked for its script so far; an aborted one for that of the stage it left, and
      then at most for one recovery of the chunk at hand. */
  ghost predicate ToScript(m: Machine, log: seq<Action>) {
    m.chunk <= |m.chunks| && (m.chunk == |m.chunks| ==> m.stage == Completed) &&
    if m.stage == Aborted then
      exists stage ::
        && stage !in {Completed, Aborted}
        && (log == Script(m.role, m.chunks, stage, m.chunk)
            || exists a :: Recovery(a, m.chunk) && log == Script(m.role, m.chunks, stage, m.chunk) + [a])
    else log == Script(m.role, m.chunks, m.stage, m.chunk)
  }

  lemma ScriptOnAbort(m: Machine, log: seq<Action>)
    requires m.chunks != [] && !Finished(m) && ToScript(m, log)
    ensures ToScript(m.(stage := Aborted), log + AbortActions(m))
  {
    var script := Script(m.role, m.chunks, m.stage, m.chunk);
    var v := m.(stage := Aborted);
    assert script == Script(v.role, v.chunks, m.stage, v.chunk);
    if AbortActions(m) == [] {
      assert log + AbortActions(m) == script;
    } else {
      assert Recovery(AbortActions(m)[0], m.chunk) && log + AbortActions(m) == script + [AbortActions(m)[0]];
    }
  }

  lemma ScriptOnAdvance(m: Machine, event: Event, log: seq<Action>)
    requires m.chunks != [] && !Finished(m) && AccountsAt(m, m.stage) && ToScript(m, log)
    requires Advance(m, event).Some?
    ensures ToScript(Advance(m, event).value.next, log + Advance(m, event).value.actions)
  {
    if m.stage == AwaitXmrSweep {
      ScriptOnSweep(m, event, log);
    } else {
      ActionsAreNext(m, event);
      var round := RoundOf(m.role, m.chunks, m.chunk);
      var (i, j) := (ToldBy(m.role, m.stage), ToldBy(m.role, Advance(m, event).value.next.stage));
      assert round[..i] + round[i..j] == round[..j];
      assert log + round[i..j] == Rounds(m.role, m.chunks, m.chunk) + (round[..i] + round[i..j]);
    }
  }

  /** Within a chunk, a step asks a side for the very next of its actions, or for none. */
  lemma ActionsAreNext(m: Machine, event: Event)
    requires m.chunks != [] && !Finished(m) && m.stage != AwaitXmrSweep && m.chunk < |m.chunks|
    requires Advance(m, event).Some?
    ensures var (v, round) := (Advance(m, event).value.next, RoundOf(m.role, m.chunks, m.chunk));
            && !Finished(v) && v.chunk == m.chunk && v.chunks == m.chunks && v.role == m.role
            && ToldBy(m.role, m.stage) <= ToldBy(m.role, v.stage) <= |round|
            && Advance(m, event).value.actions == round[ToldBy(m.role, m.stage)..ToldBy(m.role, v.stage)]
  {
  }

  lemma ScriptOnSweep(m: Machine, event: Event, log: seq<Action>)
    requires m.chunks != [] && m.stage == AwaitXmrSweep && m.chunk < |m.chunks| && ToScript(m, log)
    requires Advance(m, event).Some?
    ensures ToScript(Advance(m, event).value.next, log + Advance(m, event).value.actions)
  {
    var round := RoundOf(m.role, m.chunks, m.chunk);
    assert round[..|round|] == round;
    assert log == Rounds(m.role, m.chunks, m.chunk + 1);
  }

  lemma ScriptStep(m: Machine, event: Event, log: seq<Action>)
    requires m.chunks != [] && Accounts(m) && ToScript(m, log)
    ensures var reply := Handled(m, event);
            ToScript(reply.next, log + if reply.result.Ok? then reply.result.value else [])
  {
    AccountsStep(m, event);
    if Handled(m, event).result.Err? {
      assert log + [] == log;
    } else if Aborts(m, event) {
      ScriptOnAbort(m, log);
    } else {
      ScriptOnAdvance(m, event, log);
    }
  }

  /** TOLD BY THE SCRIPT.  Over every event sequence, whatever arrives out of place, a side is told
      each chunk's actions once, in order and for that chunk's own amount, and never the other
      side's; an abort adds at most one recovery of the chunk at hand. */
  lemma {:induction false} ToldByScript(role: Role, chunks: seq<nat>, maturity: nat, events: seq<Event>)
    requires chunks != []
    ensures var start := Start(role, chunks, maturity);
            Run(start, events).role == role && Run(start, events).chunks == chunks
            && ToScript(Run(start, events), Log(start, events))
  {
    ExactAccounting(role, chunks, maturity, events);
    if events != [] {
      var before := events[..|events| - 1];
      var start := Start(role, chunks, maturity);
      ToldByScript(role, chunks, maturity, before);
      ExactAccounting(role, chunks, maturity, before);
      ScriptStep(Run(start, before), events[|events| - 1], Log(start, before));
    }
  }

  /** THE WHOLE SCRIPT.  By the time a swap is complete B was told to lock, guard and claim every
      chunk exactly once, A to pre-sign and sweep every chunk exactly once, and both to return
      the bonds, and neither anything else. */
  lemma CompletedScript(role: Role, chunks: seq<nat>, maturity: nat, events: seq<Event>)
    requires chunks != [] && Run(Start(role, chunks, maturity), events).stage == Completed
    ensures Log(Start(role, chunks, maturity), events) == Rounds(role, chunks, |chunks|) + [ReturnBonds]
  {
    ToldByScript(role, chunks, maturity, events);
    ExactAccounting(role, chunks, maturity, events);
  }

  /** An action of the script, for its own chunk and amount and on its own side. */
  predicate Rightful(role: Role, chunks: seq<nat>, a: Action) {
    match a
    case LockXmrChunk(c, amount) => role == XmrSeller && c < |chunks| && amount == chunks[c]
    case DeliverPresign(c, amount) => role == XnoSeller && c < |chunks| && amount == chunks[c]
    case BroadcastGuard(c) => role == XmrSeller && c < |chunks|
    case CompleteAndBroadcastClaim(c) => role == XmrSeller && c < |chunks|
    case SweepXmr(c) => role == XnoSeller && c < |chunks|
    case TriggerRefundBackstop(c) => role == XmrSeller && c < |chunks|
    case ReturnBonds => true
  }

  /** Every single action asked for, over every trace, is rightful. */
  lemma ActionsAreRightful(role: Role, chunks: seq<nat>, maturity: nat, events: seq<Event>, i: nat, a: Action)
    requires chunks != [] && i < |events| && Emits(ReplyTo(Start(role, chunks, maturity), events, i), a)
    ensures Rightful(role, chunks, a)
  {
    ExactAccounting(role, chunks, maturity, events[..i]);
  }

  // ---------- what is refused, and what an abort tells ----------

  /** A reorg of the chunk at hand ends the swap exactly from where A is told to pre-sign it to where
      A is told to sweep it. */
  predicate Undone(m: Machine, event: Event) {
    event == LockReorged(m.chunk) && ToldBy(XnoSeller, m.stage) == 1
  }

  /** REFUSED, EXACTLY.  An unfinished machine takes an abort, such a reorg, the awaited event and a lock
      not deep enough yet; it refuses everything else as unexpected, and a finished one everything as
      terminal.  A lock too shallow changes nothing but what is in flight. */
  lemma RefusedExactly(m: Machine, event: Event)
    requires m.chunks != [] && Accounts(m)
    ensures var (reply, shallow) := (Handled(m, event), m.stage == AwaitXmrLock && event.XmrLockObserved?
                                                         && event.chunk == m.chunk && event.confirmations < m.maturity);
            && (reply.result == Err(Terminal) <==> Finished(m))
            && (reply.result == Err(UnexpectedEvent) <==>
                !Finished(m) && event != Abort && !Undone(m, event) && !IsAwaited(m, event) && !shallow)
            && (shallow ==> reply == Reply(m.(xmrInFlight := m.chunks[m.chunk]), Ok([])))
            && (!Finished(m) ==> (reply.next.stage == Aborted <==> event == Abort || Undone(m, event)))
  {
    AccountsStep(m, event);
  }

  /** WHAT AN ABORT TELLS.  B takes its refund back exactly when Monero of its own is in flight and the
      claim has not settled; A goes on to sweep exactly when B has been told to claim this chunk. */
  lemma AbortTells(m: Machine, event: Event)
    requires m.chunks != [] && Accounts(m) && !Finished(m) && (event == Abort || Undone(m, event))
    ensures Handled(m, event).result ==
              Ok(if m.role == XmrSeller then
                   (if m.xmrInFlight > 0 && m.xnoSettled == m.xmrSettled then [TriggerRefundBackstop(m.chunk)] else [])
                 else if ToldBy(XmrSeller, m.stage) == 3 then [SweepXmr(m.chunk)] else [])
  {
    AccountsStep(m, event);
  }

  // ---------- going on ----------

  /** The event an unfinished machine waits for. */
  function Awaited(m: Machine): Event {
    match m.stage
    case AwaitBonds => BothBondsConfirmed
    case AwaitXmrLock => XmrLockObserved(m.chunk, m.maturity)
    case AwaitPresign => PresignDelivered(m.chunk)
    case AwaitGuardConfirm => GuardConfirmed(m.chunk)
    case AwaitXnoClaim => XnoClaimSettled(m.chunk)
    case AwaitXmrSweep => XmrSweepConfirmed(m.chunk)
    case Completed => Abort
    case Aborted => Abort
  }

  /** The awaited event; a lock may be deeper than asked. */
  predicate IsAwaited(m: Machine, event: Event) {
    || event == Awaited(m)
    || (m.stage == AwaitXmrLock && event.XmrLockObserved?
        && event.chunk == m.chunk && event.confirmations >= m.maturity)
  }

  /** A machine goes on on exactly the event it waits for: neither on another, nor ever not. */
  lemma ProgressExactly(m: Machine, event: Event)
    requires m.chunks != [] && Accounts(m)
    ensures Progress(m, event) <==> !Finished(m) && IsAwaited(m, event)
  {
    AccountsStep(m, event);
  }

  lemma RunOn(m: Machine, events: seq<Event>, e: Event)
    ensures Run(m, events + [e]) == Handled(Run(m, events), e).next
  {
    assert (events + [e])[..|events|] == events;
  }

  /** How many awaited events an unaborted machine is away from completion. */
  function Remaining(m: Machine): int { 5 * |m.chunks| + 1 - Rank(m) }

  lemma GoesOn(m: Machine) returns (e: Event)
    requires m.chunks != [] && Accounts(m) && m.stage != Aborted
    ensures Remaining(m) >= 0 && (Remaining(m) == 0 <==> m.stage == Completed)
    ensures m.stage != Completed ==>
              var v := Handled(m, e).next; v.stage != Aborted && Remaining(v) == Remaining(m) - 1
  {
    e := Awaited(m);
    if m.stage != Completed {
      AccountsStep(m, e);
      RankStep(m, e);
    }
  }

  lemma OneOn(role: Role, chunks: seq<nat>, maturity: nat, events: seq<Event>) returns (e: Event)
    requires chunks != [] && Run(Start(role, chunks, maturity), events).stage != Aborted
    ensures var start := Start(role, chunks, maturity);
            var (v, w) := (Run(start, events), Run(start, events + [e]));
            && Remaining(v) >= 0 && (Remaining(v) == 0 <==> v.stage == Completed)
            && (v.stage != Completed ==> w.stage != Aborted && Remaining(w) == Remaining(v) - 1)
  {
    ExactAccounting(role, chunks, maturity, events);
    e := GoesOn(Run(Start(role, chunks, maturity), events));
    RunOn(Start(role, chunks, maturity), events, e);
  }

  /** ALWAYS COMPLETABLE.  Wherever a trace without an abort has led, the awaited events one by one
      complete the swap. */
  lemma CanComplete(role: Role, chunks: seq<nat>, maturity: nat, events: seq<Event>)
    returns (rest: seq<Event>)
    requires chunks != [] && Run(Start(role, chunks, maturity), events).stage != Aborted
    ensures Run(Start(role, chunks, maturity), events + rest).stage == Completed
    ensures |rest| == Remaining(Run(Start(role, chunks, maturity), events))
  {
    var (start, at) := (Start(role, chunks, maturity), events);
    rest := [];
    var left := Remaining(Run(start, at));
    assert events + [] == events;
    while Run(start, at).stage != Completed
      invariant at == events + rest && Run(start, at).stage != Aborted
      invariant left == Remaining(Run(start, at)) && |rest| + left == Remaining(Run(start, events))
      decreases left
    {
      var e := OneOn(role, chunks, maturity, at);
      at, rest, left := at + [e], rest + [e], left - 1;
    }
    var e := OneOn(role, chunks, maturity, at);
  }

  // ---------- the machine as the source keeps it ----------

  class Engine {
    const role: Role
    const chunks: seq<nat>
    const maturity: nat
    var stage: Stage
    var chunk: nat
    var xnoSettled: nat
    var xmrSettled: nat
    var xmrInFlight: nat

    ghost function State(): Machine
      reads this
    {
      Machine(role, chunks, maturity, stage, chunk, xnoSettled, xmrSettled, xmrInFlight)
    }

    constructor (role: Role, chunks: seq<nat>, maturity: nat)
      ensures State() == Start(role, chunks, maturity)
    {
      this.role, this.chunks, this.maturity := role, chunks, maturity;
      stage, chunk := AwaitBonds, 0;
      xnoSettled, xmrSettled, xmrInFlight := 0, 0, 0;
    }

    method CheckInvariant() returns (ok: bool)
      ensures ok == WithinOneChunk(State())
    {
      var bound := Max(chunks);
      var gap := AbsDiff(xnoSettled, xmrSettled + xmrInFlight);
      ok := gap <= bound && xmrInFlight <= bound;
    }

    method AbortNow() returns (r: Result<seq<Action>, MachineError>)
      modifies this
      ensures Reply(State(), r) == Checked(old(State()).(stage := Aborted), AbortActions(old(State())))
    {
      var actions := [];
      if role == XmrSeller && xmrInFlight > 0
         && stage in {AwaitXmrLock, AwaitPresign, AwaitGuardConfirm, AwaitXnoClaim} {
        actions := [TriggerRefundBackstop(chunk)];
      } else if role == XnoSeller && stage in {AwaitXnoClaim, AwaitXmrSweep} {
        actions := [SweepXmr(chunk)];
      }
      stage := Aborted;
      var ok := CheckInvariant();
      r := if ok then Ok(actions) else Err(InvariantViolated);
    }

    function Mine(who: Role, action: Action): seq<Action> {
      if role == who then [action] else []
    }

    /** The stage table, in place; None when the event is not the one awaited. */
    method AdvanceStage(event: Event) returns (out: Option<seq<Action>>)
      requires chunks != []
      modifies this
      ensures match Advance(old(State()), event)
              case None => out == None && State() == old(State())
              case Some(move) => out == Some(move.actions) && State() == move.next
    {
      var amount := chunks[if chunk < |chunks| then chunk else |chunks| - 1];
      if stage == AwaitBonds && event == BothBondsConfirmed {
        stage, out := AwaitXmrLock, Some(Mine(XmrSeller, LockXmrChunk(chunk, amount)));
      } else if stage == AwaitXmrLock && event.XmrLockObserved? && event.chunk == chunk {
        xmrInFlight := amount;
        if event.confirmations >= maturity {
          stage, out := AwaitPresign, Some(Mine(XnoSeller, DeliverPresign(chunk, amount)));
        } else {
          out := Some([]);  // shallow lock: hold, no pre-sign yet
        }
      } else if stage == AwaitPresign && event == PresignDelivered(chunk) {
        stage, out := AwaitGuardConfirm, Some(Mine(XmrSeller, BroadcastGuard(chunk)));
      } else if stage == AwaitGuardConfirm && event == GuardConfirmed(chunk) {
        stage, out := AwaitXnoClaim, Some(Mine(XmrSeller, CompleteAndBroadcastClaim(chunk)));
      } else if stage == AwaitXnoClaim && event == XnoClaimSettled(chunk) {
        xnoSettled := xnoSettled + amount;
        stage, out := AwaitXmrSweep, Some(Mine(XnoSeller, SweepXmr(chunk)));
      } else if stage == AwaitXmrSweep && event == XmrSweepConfirmed(chunk) {
        xmrSettled, xmrInFlight, chunk := xmrSettled + xmrInFlight, 0, chunk + 1;
        if chunk == |chunks| {
          stage, out := Completed, Some([ReturnBonds]);
        } else {
          var next := chunks[if chunk < |chunks| then chunk else |chunks| - 1];
          stage, out := AwaitXmrLock, Some(Mine(XmrSeller, LockXmrChunk(chunk, next)));
        }
      } else {
        out := None;
      }
    }

    /** `handle`: the new state and the reply are those of the specification above. */
    method Handle(event: Event) returns (r: Result<seq<Action>, MachineError>)
      modifies this
      ensures Reply(State(), r) == Handled(old(State()), event)
    {
      if |chunks| == 0 { return Err(InvariantViolated); }
      if stage == Completed || stage == Aborted { return Err(Terminal); }
      if event == Abort {
        r := AbortNow();
        return;
      }
      if event.LockReorged? {
        if event.chunk == chunk && stage in {AwaitPresign, AwaitGuardConfirm, AwaitXnoClaim} {
          r := AbortNow();
          return;
        }
        return Err(UnexpectedEvent);
      }
      var out := AdvanceStage(event);
      if out == None { return Err(UnexpectedEvent); }
      var ok := CheckInvariant();
      if !ok {
        stage := Aborted;
        return Err(InvariantViolated);
      }
      r := Ok(out.value);
    }
  }
}
