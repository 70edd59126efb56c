/** Gossip between relays: swap-core/dexd/src/main.rs floods every order that its relay
    accepts to its peers.  Relays run at lock granularity, any number of calls at once. */
module Mesh {
  import opened Common
  import opened Orders
  import opened Book
  import opened Relay

  /** A copy of an order on its way to a relay. */
  datatype Copy = Copy(to: nat, order: SignedOrder)

  /** The relays and the copies between them.  `injected` counts the copies that clients and
      joining peers' snapshots put in, `delivered` those handed to a relay, `sweeps` the sweeps
      called and `worked` the steps relays made: history no relay keeps. */
  datatype Net = Net(
    relays: seq<State>, flying: seq<Copy>, injected: nat, delivered: nat, sweeps: nat, worked: nat)

  /** Each relay's peers. */
  type Links = seq<seq<nat>>

  function Start(links: Links): Net {
    Net(seq(|links|, _ => Empty), [], 0, 0, 0, 0)
  }

  datatype Event =
    | Inject(copy: Copy)
    | Deliver(k: nat, t: Tid, now: nat, pof: bool) // copy k reaches its relay, which calls `ingest`
    | Sweep(r: nat, t: Tid, now: nat)
    | Work(r: nat, t: Tid, from: Option<nat>)     // an accepted order goes to all peers but `from`

  function CallOf(net: Net, e: Event): Relay.Step
    requires e.Deliver? ==> e.k < |net.flying|
  {
    match e
    case Inject(_) => Go(0)
    case Deliver(k, t, now, pof) => Spawn(t, IngestCalled(Job(net.flying[k].order, now, pof)))
    case Sweep(_, t, now) => Spawn(t, SweepCalled(now))
    case Work(_, t, _) => Go(t)
  }

  /** The relay an event happens at. */
  function At(net: Net, e: Event): nat
    requires e.Deliver? ==> e.k < |net.flying|
  {
    match e
    case Inject(copy) => copy.to
    case Deliver(k, _, _, _) => net.flying[k].to
    case Sweep(r, _, _) => r
    case Work(r, _, _) => r
  }

  /** `p` is what the relays' callers keep to; `AnyCalls` is nothing at all. */
  predicate Can(p: Policy, net: Net, e: Event) {
    && (e.Deliver? ==> e.k < |net.flying|)
    && At(net, e) < |net.relays|
    && (!e.Inject? ==>
        && Enabled(net.relays[At(net, e)], CallOf(net, e))
        && Permitted(p, net.relays[At(net, e)], CallOf(net, e)))
  }

  function Copies(peers: seq<nat>, from: Option<nat>, order: SignedOrder): seq<Copy> {
    if peers == [] then []
    else (if from == Some(peers[0]) then [] else [Copy(peers[0], order)]) + Copies(peers[1..], from, order)
  }

  /** What a step of a relay floods: the order its ingest has just accepted, to its peers. */
  function Flooded(links: Links, net: Net, r: nat, t: Tid, from: Option<nat>): seq<Copy>
    requires r < |net.relays| <= |links| && Enabled(net.relays[r], Go(t))
  {
    var (s, v) := (net.relays[r], Next(net.relays[r], Go(t)));
    if s.threads[t].InBook? && v.threads[t] == Returned(Accepted) then Copies(links[r], from, s.threads[t].job.order)
    else []
  }

  function After(links: Links, net: Net, e: Event): Net
    requires |net.relays| == |links| && Can(AnyCalls, net, e)
  {
    if e.Inject? then net.(flying := net.flying + [e.copy], injected := net.injected + 1)
    else
      var r := At(net, e);
      var moved := net.(relays := net.relays[r := Next(net.relays[r], CallOf(net, e))]);
      match e
      case Deliver(k, _, _, _) =>
        moved.(flying := net.flying[..k] + net.flying[k + 1..], delivered := net.delivered + 1)
      case Sweep(_, _, _) => moved.(sweeps := net.sweeps + 1)
      case Work(_, t, from) => moved.(flying := net.flying + Flooded(links, net, r, t, from), worked := net.worked + 1)
  }

  function Run(links: Links, p: Policy, events: seq<Event>): (net: Option<Net>)
    ensures net.Some? ==> |net.value.relays| == |links|
  {
    if events == [] then Some(Start(links))
    else
      var before := Run(links, p, events[..|events| - 1]);
      if before.Some? && Can(p, before.value, events[|events| - 1]) then
        Some(After(links, before.value, events[|events| - 1]))
      else None
  }

  // ---------- every relay keeps its own invariants, and knows no orders but those injected ----------

  predicate OrdersIn(s: State, universe: set<Hash>) {
    && (forall h <- s.accepted :: h in universe)
    && (forall t <- s.threads :: Ingesting(s.threads[t]) ==> HashOf(s.threads[t].job.order) in universe)
  }

  ghost predicate SoundRelay(s: State, universe: set<Hash>) {
    Inv(s) && OrdersIn(s, universe) && forall h: Hash :: SweptBetween(s, h)
  }

  ghost predicate Sound(net: Net, universe: set<Hash>) {
    && (forall r :: 0 <= r < |net.relays| ==> SoundRelay(net.relays[r], universe))
    && (forall k :: 0 <= k < |net.flying| ==> HashOf(net.flying[k].order) in universe)
  }

  predicate InjectedIn(events: seq<Event>, universe: set<Hash>) {
    forall i :: 0 <= i < |events| && events[i].Inject? ==> HashOf(events[i].copy.order) in universe
  }

  lemma {:induction false} CopiesAre(peers: seq<nat>, from: Option<nat>, order: SignedOrder)
    ensures |Copies(peers, from, order)| <= |peers|
    ensures forall k :: 0 <= k < |Copies(peers, from, order)| ==> Copies(peers, from, order)[k].order == order
  {
    if peers != [] {
      CopiesAre(peers[1..], from, order);
    }
  }

  lemma FloodedAre(links: Links, net: Net, r: nat, t: Tid, from: Option<nat>, degree: nat)
    requires r < |net.relays| <= |links| && Enabled(net.relays[r], Go(t)) && |links[r]| <= degree
    ensures var (s, v, out) := (net.relays[r], Next(net.relays[r], Go(t)), Flooded(links, net, r, t, from));
            && |s.accepted| <= |v.accepted| <= |s.accepted| + 1
            && |out| <= (if |v.accepted| == |s.accepted| then 0 else degree)
            && (s.threads[t].InBook? ==> forall k :: 0 <= k < |out| ==> out[k].order == s.threads[t].job.order)
            && (!s.threads[t].InBook? ==> out == [])
  {
    if net.relays[r].threads[t].InBook? {
      CopiesAre(links[r], from, net.relays[r].threads[t].job.order);
    }
  }

  lemma OrdersStay(s: State, step: Relay.Step, universe: set<Hash>)
    requires OrdersIn(s, universe) && Enabled(s, step)
    requires step.Spawn? && step.call.IngestCalled? ==> HashOf(step.call.job.order) in universe
    ensures OrdersIn(Next(s, step), universe)
  {
    if step.Go? && s.threads[step.t].InBook? {
      assert HashOf(s.threads[step.t].job.order) in universe;
    }
  }

  lemma SoundRelayStep(s: State, step: Relay.Step, universe: set<Hash>)
    requires SoundRelay(s, universe) && Enabled(s, step)
    requires step.Spawn? && step.call.IngestCalled? ==> HashOf(step.call.job.order) in universe
    ensures SoundRelay(Next(s, step), universe)
  {
    InvStep(s, step);
    OrdersStay(s, step, universe);
    forall h: Hash ensures SweptBetween(Next(s, step), h) {
      SweptBetweenStep(s, step, h);
    }
  }

  lemma SoundStep(links: Links, net: Net, e: Event, universe: set<Hash>)
    requires |net.relays| == |links| && Can(AnyCalls, net, e) && Sound(net, universe)
    requires e.Inject? ==> HashOf(e.copy.order) in universe
    ensures Sound(After(links, net, e), universe)
  {
    var v := After(links, net, e);
    if !e.Inject? {
      SoundRelayStep(net.relays[At(net, e)], CallOf(net, e), universe);
    }
    if e.Work? {
      FloodedAre(links, net, e.r, e.t, e.from, |links[e.r]|);
    }
    forall k | 0 <= k < |v.flying| ensures HashOf(v.flying[k].order) in universe {
    }
  }

  /** Whatever callers do, every relay keeps its invariants, knows no orders but those put in, and
      accepts none of them more than once without a sweep having made room. */
  lemma {:induction false} SoundRun(links: Links, p: Policy, events: seq<Event>, universe: set<Hash>)
    requires Run(links, p, events).Some? && InjectedIn(events, universe)
    ensures Sound(Run(links, p, events).value, universe)
  {
    if events != [] {
      SoundRun(links, p, events[..|events| - 1], universe);
      SoundStep(links, Run(links, p, events[..|events| - 1]).value, events[|events| - 1], universe);
    }
  }

  /** With careful callers, no relay accepts an order twice. */
  lemma {:induction false} OnceEverywhere(links: Links, events: seq<Event>, universe: set<Hash>)
    requires Run(links, Careful, events).Some? && InjectedIn(events, universe)
    ensures var net := Run(links, Careful, events).value;
            forall r :: 0 <= r < |net.relays| ==> AcceptedOnce(net.relays[r])
  {
    if events != [] {
      var (before, e) := (events[..|events| - 1], events[|events| - 1]);
      OnceEverywhere(links, before, universe);
      SoundRun(links, Careful, before, universe);
      var net := Run(links, Careful, before).value;
      if !e.Inject? {
        OnceStep(net.relays[At(net, e)], CallOf(net, e));
      }
    }
  }

  // ---------- only genuine orders travel ----------

  predicate Signed(order: SignedOrder) {
    && order.body.amount > 0 && order.body.ratePico > 0
    && order.signature == SignedBy(order.body.maker, order.body)
  }

  predicate Genuine(flying: seq<Copy>, injected: set<SignedOrder>) {
    forall k :: 0 <= k < |flying| ==> flying[k].order in injected || Signed(flying[k].order)
  }

  lemma FloodedAreSigned(links: Links, net: Net, r: nat, t: Tid, from: Option<nat>)
    requires r < |net.relays| <= |links| && Enabled(net.relays[r], Go(t))
    ensures forall k :: 0 <= k < |Flooded(links, net, r, t, from)| ==> Signed(Flooded(links, net, r, t, from)[k].order)
  {
    if net.relays[r].threads[t].InBook? {
      CopiesAre(links[r], from, net.relays[r].threads[t].job.order);
    }
  }

  /** ONLY GENUINE ORDERS TRAVEL.  Whatever is put in, forged orders included, every copy a relay sends on
      is of an order signed by its own maker. */
  lemma {:induction false} OnlyGenuineTravel(links: Links, p: Policy, events: seq<Event>, injected: set<SignedOrder>)
    requires Run(links, p, events).Some?
    requires forall i :: 0 <= i < |events| && events[i].Inject? ==> events[i].copy.order in injected
    ensures Genuine(Run(links, p, events).value.flying, injected)
  {
    if events != [] {
      var (before, e) := (events[..|events| - 1], events[|events| - 1]);
      OnlyGenuineTravel(links, p, before, injected);
      if e.Work? {
        FloodedAreSigned(links, Run(links, p, before).value, e.r, e.t, e.from);
      }
    }
  }

  // ---------- and they reach every peer ----------

  lemma {:induction false} CopiesReach(peers: seq<nat>, from: Option<nat>, order: SignedOrder, c: Copy)
    ensures c in Copies(peers, from, order) <==> c.order == order && c.to in peers && from != Some(c.to)
  {
    if peers != [] {
      CopiesReach(peers[1..], from, order, c);
    }
  }

  /** A relay accepts: its call returns so at this event. */
  predicate AcceptsAt(net: Net, e: Event, order: SignedOrder) {
    && e.Work? && e.r < |net.relays| && Enabled(net.relays[e.r], Go(e.t))
    && var (s, v) := (net.relays[e.r], Next(net.relays[e.r], Go(e.t)));
       s.threads[e.t].InBook? && s.threads[e.t].job.order == order && v.threads[e.t] == Returned(Accepted)
  }

  /** The relay the copy is for is called with its order. */
  predicate DeliveredAt(links: Links, p: Policy, events: seq<Event>, j: nat, c: Copy) {
    && j < |events| && events[j].Deliver? && Run(links, p, events[..j + 1]).Some?
    && var v := Run(links, p, events[..j + 1]).value;
       && c.to < |v.relays| && events[j].t in v.relays[c.to].threads
       && v.relays[c.to].threads[events[j].t] == IngestCalled(Job(c.order, events[j].now, events[j].pof))
  }

  /** What a step does to a copy in flight. */
  lemma StillFlying(links: Links, net: Net, e: Event, c: Copy)
    requires |net.relays| == |links| && Can(AnyCalls, net, e) && c in net.flying
    ensures c in After(links, net, e).flying || (e.Deliver? && net.flying[e.k] == c)
  {
    var k :| 0 <= k < |net.flying| && net.flying[k] == c;
    var v := After(links, net, e);
    if e.Deliver? && k != e.k {
      assert v.flying[if k < e.k then k else k - 1] == c;
    } else if !e.Deliver? {
      assert v.flying[k] == c;
    }
  }

  lemma LastEvent(links: Links, p: Policy, events: seq<Event>, c: Copy)
    requires events != [] && Run(links, p, events).Some?
    requires c in Run(links, p, events[..|events| - 1]).value.flying
    ensures c in Run(links, p, events).value.flying || DeliveredAt(links, p, events, |events| - 1, c)
  {
    StillFlying(links, Run(links, p, events[..|events| - 1]).value, events[|events| - 1], c);
    assert events[..|events|] == events;
  }

  lemma DeliveredStays(links: Links, p: Policy, events: seq<Event>, n: nat, j: nat, c: Copy)
    requires n <= |events| && DeliveredAt(links, p, events[..n], j, c)
    ensures DeliveredAt(links, p, events, j, c)
  {
    assert events[..n][..j + 1] == events[..j + 1];
  }

  lemma {:induction false} NothingIsLost(links: Links, p: Policy, events: seq<Event>, i: nat, c: Copy)
    requires i <= |events| && Run(links, p, events).Some? && Run(links, p, events[..i]).Some?
    requires c in Run(links, p, events[..i]).value.flying
    ensures c in Run(links, p, events).value.flying
         || exists j :: i <= j < |events| && DeliveredAt(links, p, events, j, c)
    decreases |events|
  {
    if i == |events| {
      assert events[..i] == events;
    } else {
      var n := |events| - 1;
      assert events[..n][..i] == events[..i];
      NothingIsLost(links, p, events[..n], i, c);
      if c in Run(links, p, events[..n]).value.flying {
        LastEvent(links, p, events, c);
      } else {
        var j :| i <= j < n && DeliveredAt(links, p, events[..n], j, c);
        DeliveredStays(links, p, events, n, j, c);
      }
    }
  }

  /** EVERY PEER IS TOLD.  Once a relay has accepted an order, each of its peers but the one it names
      as the sender has a copy on its way, or has been called with it. */
  lemma EveryPeerIsTold(links: Links, p: Policy, events: seq<Event>, i: nat, order: SignedOrder, peer: nat)
    requires i < |events| && Run(links, p, events).Some? && Run(links, p, events[..i]).Some?
    requires AcceptsAt(Run(links, p, events[..i]).value, events[i], order)
    requires peer in links[events[i].r] && events[i].from != Some(peer)
    ensures var c := Copy(peer, order);
            || c in Run(links, p, events).value.flying
            || exists j :: i < j < |events| && DeliveredAt(links, p, events, j, c)
  {
    var (net, e) := (Run(links, p, events[..i]).value, events[i]);
    PrefixRuns(links, p, events, i + 1);
    assert events[..i + 1][..i] == events[..i];
    CopiesReach(links[e.r], e.from, order, Copy(peer, order));
    assert Copy(peer, order) in Run(links, p, events[..i + 1]).value.flying;
    NothingIsLost(links, p, events, i + 1, Copy(peer, order));
  }

  lemma {:induction false} PrefixRuns(links: Links, p: Policy, events: seq<Event>, i: nat)
    requires i <= |events| && Run(links, p, events).Some?
    ensures Run(links, p, events[..i]).Some?
    decreases |events|
  {
    if i == |events| {
      assert events[..i] == events;
    } else {
      PrefixRuns(links, p, events[..|events| - 1], i);
      assert events[..|events| - 1][..i] == events[..i];
    }
  }

  // ---------- sums over the relays ----------

  ghost function Total(relays: seq<State>, g: State -> nat): nat {
    if relays == [] then 0 else Total(relays[..|relays| - 1], g) + g(relays[|relays| - 1])
  }

  lemma {:induction false} TotalUpdate(relays: seq<State>, g: State -> nat, r: nat, v: State)
    requires r < |relays|
    ensures Total(relays[r := v], g) == Total(relays, g) - g(relays[r]) + g(v)
  {
    var n := |relays| - 1;
    if r == n {
      assert relays[r := v][..n] == relays[..n];
    } else {
      TotalUpdate(relays[..n], g, r, v);
      assert relays[r := v][..n] == relays[..n][r := v];
    }
  }

  lemma {:induction false} TotalOfNone(n: nat, g: State -> nat)
    requires g(Empty) == 0
    ensures Total(seq(n, _ => Empty), g) == 0
  {
    if n > 0 {
      assert seq(n, _ => Empty)[..n - 1] == seq(n - 1, _ => Empty);
      TotalOfNone(n - 1, g);
    }
  }

  function AcceptedOf(s: State): nat { |s.accepted| }

  /** How often a relay accepted an order. */
  function TimesOf(h: Hash): State -> nat { (s: State) => multiset(s.accepted)[h] }

  // ---------- conservation of copies ----------

  predicate Degree(links: Links, degree: nat) {
    forall r :: 0 <= r < |links| ==> |links[r]| <= degree
  }

  /** Copies come from outside or from an acceptance, and leave by delivery. */
  ghost predicate Conserved(net: Net, degree: nat) {
    net.delivered + |net.flying| <= net.injected + degree * Total(net.relays, AcceptedOf)
  }

  lemma ConservedStep(links: Links, net: Net, e: Event, degree: nat)
    requires |net.relays| == |links| && Can(AnyCalls, net, e) && Degree(links, degree) && Conserved(net, degree)
    ensures Conserved(After(links, net, e), degree)
  {
    if e.Work? {
      ConservedWork(links, net, e, degree);
    } else if !e.Inject? {
      var r := At(net, e);
      TotalUpdate(net.relays, AcceptedOf, r, Next(net.relays[r], CallOf(net, e)));
    }
  }

  lemma ConservedWork(links: Links, net: Net, e: Event, degree: nat)
    requires |net.relays| == |links| && Can(AnyCalls, net, e) && Degree(links, degree) && Conserved(net, degree)
    requires e.Work?
    ensures Conserved(After(links, net, e), degree)
  {
    var accepted := Total(net.relays, AcceptedOf);
    TotalUpdate(net.relays, AcceptedOf, e.r, Next(net.relays[e.r], Go(e.t)));
    FloodedAre(links, net, e.r, e.t, e.from, degree);
    OneMore(degree, accepted);
  }

  lemma OneMore(degree: nat, a: nat)
    ensures degree * (a + 1) == degree * a + degree
  {
  }

  lemma {:induction false} ConservedRun(links: Links, p: Policy, events: seq<Event>, degree: nat)
    requires Run(links, p, events).Some? && Degree(links, degree)
    ensures Conserved(Run(links, p, events).value, degree)
  {
    if events != [] {
      ConservedRun(links, p, events[..|events| - 1], degree);
      ConservedStep(links, Run(links, p, events[..|events| - 1]).value, events[|events| - 1], degree);
    } else {
      TotalOfNone(|links|, AcceptedOf);
    }
  }

  // ---------- sums over a relay's calls ----------

  /** The steps a call still has before it returns, at most. */
  function Left(pc: Pc): nat {
    match pc
    case IngestCalled(_) => 6
    case MarkSeen(_) => 5
    case Reserved(_) => 4
    case InBook(_) => 3
    case RollBack(_) => 2
    case Unmark(_) => 1
    case SweepCalled(_) => 4
    case SweepBook(_) => 3
    case PruneWait(_) => 2
    case Prune(_) => 1
    case Returned(_) => 0
    case Swept(_) => 0
  }

  /** The sweeps of the book a call still has before it. */
  function ToSweep(pc: Pc): nat { if pc.SweepCalled? || pc.SweepBook? then 1 else 0 }

  ghost function AnyOf(threads: map<Tid, Pc>): (t: Tid)
    requires threads != map[]
    ensures t in threads
  {
    assert exists t :: t in threads;
    var t :| t in threads;
    t
  }

  ghost function SumIn(threads: map<Tid, Pc>, f: Pc -> nat): nat
    decreases |threads|
  {
    if threads == map[] then 0
    else
      var t := AnyOf(threads);
      assert |threads - {t}| < |threads| by { Smaller(threads, t); }
      f(threads[t]) + SumIn(threads - {t}, f)
  }

  lemma Smaller(threads: map<Tid, Pc>, t: Tid)
    requires t in threads
    ensures |threads - {t}| < |threads|
  {
    assert (threads - {t}).Keys == threads.Keys - {t};
    assert |threads - {t}| == |(threads - {t}).Keys| && |threads| == |threads.Keys|;
  }

  lemma {:induction false} SumWithout(threads: map<Tid, Pc>, f: Pc -> nat, t: Tid)
    requires t in threads
    ensures SumIn(threads, f) == f(threads[t]) + SumIn(threads - {t}, f)
    decreases |threads|
  {
    var u := AnyOf(threads);
    if u != t {
      Smaller(threads, u);
      Smaller(threads, t);
      SumWithout(threads - {u}, f, t);
      SumWithout(threads - {t}, f, u);
      assert threads - {u} - {t} == threads - {t} - {u};
    }
  }

  lemma SumUpdate(threads: map<Tid, Pc>, f: Pc -> nat, t: Tid, pc: Pc)
    ensures SumIn(threads[t := pc], f) == SumIn(threads, f) + f(pc) - if t in threads then f(threads[t]) else 0
  {
    SumWithout(threads[t := pc], f, t);
    if t in threads {
      SumWithout(threads, f, t);
      assert threads[t := pc] - {t} == threads - {t};
    } else {
      assert threads[t := pc] - {t} == threads;
    }
  }

  ghost function LeftOf(s: State): nat { SumIn(s.threads, Left) }

  /** The sweeps of a relay's book, done and still to come. */
  ghost function SweepsOf(s: State): nat { s.sweeps + SumIn(s.threads, ToSweep) }

  /** Every sweep of a book was called, and calls for just one. */
  ghost predicate SweepsCalled(net: Net) {
    Total(net.relays, SweepsOf) == net.sweeps
  }

  lemma SweepsOfNext(s: State, step: Relay.Step)
    requires Enabled(s, step)
    ensures SweepsOf(Next(s, step)) == SweepsOf(s) + if step.Spawn? && step.call.SweepCalled? then 1 else 0
  {
    SumUpdate(s.threads, ToSweep, step.t, Next(s, step).threads[step.t]);
  }

  lemma {:induction false} SweepsRun(links: Links, p: Policy, events: seq<Event>)
    requires Run(links, p, events).Some?
    ensures SweepsCalled(Run(links, p, events).value)
  {
    if events != [] {
      SweepsRun(links, p, events[..|events| - 1]);
      var (net, e) := (Run(links, p, events[..|events| - 1]).value, events[|events| - 1]);
      if !e.Inject? {
        var r := At(net, e);
        SweepsOfNext(net.relays[r], CallOf(net, e));
        TotalUpdate(net.relays, SweepsOf, r, Next(net.relays[r], CallOf(net, e)));
      }
    } else {
      TotalOfNone(|links|, SweepsOf);
    }
  }

  // ---------- counting acceptances ----------

  lemma {:induction false} RepeatsFit(hs: multiset<Hash>, universe: set<Hash>, k: nat)
    requires forall h <- hs :: h in universe && hs[h] <= k
    ensures |hs| <= |universe| * k
  {
    if universe == {} {
      assert hs == multiset{};
    } else {
      var h :| h in universe;
      RepeatsFit(hs[h := 0], universe - {h}, k);
      assert |universe| == |universe - {h}| + 1;
      assert |universe| * k == |universe - {h}| * k + k;
    }
  }

  lemma RelayAcceptances(s: State, universe: set<Hash>)
    requires SoundRelay(s, universe)
    ensures AcceptedOf(s) <= |universe| * (1 + SweepsOf(s))
  {
    var hs := multiset(s.accepted);
    forall h | h in hs ensures h in universe && hs[h] <= 1 + SweepsOf(s) {
      assert SweptBetween(s, h);
    }
    RepeatsFit(hs, universe, 1 + SweepsOf(s));
  }

  lemma {:induction false} AcceptancesFit(relays: seq<State>, universe: set<Hash>)
    requires forall r :: 0 <= r < |relays| ==> SoundRelay(relays[r], universe)
    ensures Total(relays, AcceptedOf) <= |universe| * (|relays| + Total(relays, SweepsOf))
  {
    if relays != [] {
      var n := |relays| - 1;
      AcceptancesFit(relays[..n], universe);
      RelayAcceptances(relays[n], universe);
      Distribute(|universe|, n + Total(relays[..n], SweepsOf), 1 + SweepsOf(relays[n]));
    }
  }

  lemma Distribute(u: nat, a: nat, b: nat)
    ensures u * (a + b) == u * a + u * b
  {
  }

  lemma {:induction false} TimesFit(relays: seq<State>, universe: set<Hash>, h: Hash)
    requires forall r :: 0 <= r < |relays| ==> SoundRelay(relays[r], universe)
    ensures Total(relays, TimesOf(h)) <= |relays| + Total(relays, SweepsOf)
  {
    if relays != [] {
      var n := |relays| - 1;
      TimesFit(relays[..n], universe, h);
      assert SweptBetween(relays[n], h);
    }
  }

  lemma AllFit(net: Net, universe: set<Hash>, h: Hash, most: nat)
    requires Sound(net, universe) && SweepsCalled(net) && most == |net.relays| + net.sweeps
    ensures Total(net.relays, TimesOf(h)) <= most
    ensures Total(net.relays, AcceptedOf) <= |universe| * most
  {
    TimesFit(net.relays, universe, h);
    AcceptancesFit(net.relays, universe);
  }

  lemma Scale(degree: nat, a: nat, b: nat)
    requires a <= b
    ensures degree * a <= degree * b
  {
  }

  /** Any bound on the acceptances is one on the copies. */
  lemma CopiesFit(links: Links, p: Policy, events: seq<Event>, degree: nat, bound: nat)
    requires Run(links, p, events).Some? && Degree(links, degree)
    requires Total(Run(links, p, events).value.relays, AcceptedOf) <= bound
    ensures var net := Run(links, p, events).value;
            net.delivered + |net.flying| <= net.injected + degree * bound
  {
    ConservedRun(links, p, events, degree);
    Scale(degree, Total(Run(links, p, events).value.relays, AcceptedOf), bound);
  }

  lemma AcceptancesBounded(links: Links, p: Policy, events: seq<Event>, universe: set<Hash>, h: Hash)
    requires Run(links, p, events).Some? && InjectedIn(events, universe)
    ensures var net := Run(links, p, events).value;
            && Total(net.relays, TimesOf(h)) <= |links| + net.sweeps
            && Total(net.relays, AcceptedOf) <= |universe| * (|links| + net.sweeps)
  {
    SoundRun(links, p, events, universe);
    SweepsRun(links, p, events);
    var net := Run(links, p, events).value;
    AllFit(net, universe, h, |links| + net.sweeps);
  }

  /** FLOODS BOUNDED, whatever callers do.  In a mesh of N relays each order is accepted, and so
      flooded onward, at most N times and once more for each sweep; with at most `degree` peers
      each, no more copies are ever delivered than were put in plus `degree` for each of those. */
  lemma FloodsBounded(links: Links, p: Policy, events: seq<Event>, degree: nat, universe: set<Hash>, h: Hash)
    requires Run(links, p, events).Some? && Degree(links, degree) && InjectedIn(events, universe)
    ensures var net := Run(links, p, events).value;
            && Total(net.relays, TimesOf(h)) <= |links| + net.sweeps
            && net.delivered + |net.flying| <= net.injected + degree * (|universe| * (|links| + net.sweeps))
  {
    AcceptancesBounded(links, p, events, universe, h);
    CopiesFit(links, p, events, degree, |universe| * (|links| + Run(links, p, events).value.sweeps));
  }

  // ---------- careful callers ----------

  lemma {:induction false} OnceInList(hs: seq<Hash>, h: Hash)
    requires NoRepeats(hs)
    ensures multiset(hs)[h] <= 1
  {
    if hs != [] {
      var n := |hs| - 1;
      assert hs == hs[..n] + [hs[n]];
      OnceInList(hs[..n], h);
      assert hs[n] !in hs[..n];
    }
  }

  lemma {:induction false} CarefulFit(relays: seq<State>, universe: set<Hash>, h: Hash)
    requires forall r :: 0 <= r < |relays| ==> AcceptedOnce(relays[r]) && OrdersIn(relays[r], universe)
    ensures Total(relays, TimesOf(h)) <= |relays|
    ensures Total(relays, AcceptedOf) <= |universe| * |relays|
  {
    if relays != [] {
      var n := |relays| - 1;
      CarefulFit(relays[..n], universe, h);
      OnceInList(relays[n].accepted, h);
      forall g | g in multiset(relays[n].accepted) ensures g in universe && multiset(relays[n].accepted)[g] <= 1 {
        OnceInList(relays[n].accepted, g);
      }
      RepeatsFit(multiset(relays[n].accepted), universe, 1);
      Distribute(|universe|, n, 1);
    }
  }

  /** With callers that call steadily and sweep quietly (`OnceExactly`), the sweeps drop out of the
      bounds: each order is accepted at most N times. */
  lemma CarefulFloods(links: Links, events: seq<Event>, degree: nat, universe: set<Hash>, h: Hash)
    requires Run(links, Careful, events).Some? && Degree(links, degree) && InjectedIn(events, universe)
    ensures var net := Run(links, Careful, events).value;
            && Total(net.relays, TimesOf(h)) <= |links|
            && net.delivered + |net.flying| <= net.injected + degree * (|universe| * |links|)
  {
    var net := Run(links, Careful, events).value;
    SoundRun(links, Careful, events, universe);
    OnceEverywhere(links, events, universe);
    CarefulFit(net.relays, universe, h);
    CopiesFit(links, Careful, events, degree, |universe| * |links|);
  }

  // ---------- termination ----------

  /** Every step a relay made was one of those its calls came with. */
  ghost predicate Paid(net: Net) {
    net.worked + Total(net.relays, LeftOf) <= 6 * net.delivered + 4 * net.sweeps
  }

  lemma GoUses(s: State, t: Tid)
    requires Enabled(s, Go(t))
    ensures var v := Next(s, Go(t));
            v.threads == s.threads[t := v.threads[t]] && Left(v.threads[t]) < Left(s.threads[t])
  {
  }

  lemma PaidStep(links: Links, net: Net, e: Event)
    requires |net.relays| == |links| && Can(AnyCalls, net, e) && Paid(net)
    ensures Paid(After(links, net, e))
  {
    if !e.Inject? {
      var r := At(net, e);
      var step := CallOf(net, e);
      var (s, v) := (net.relays[r], Next(net.relays[r], step));
      if e.Work? { GoUses(s, e.t); }
      SumUpdate(s.threads, Left, step.t, v.threads[step.t]);
      TotalUpdate(net.relays, LeftOf, r, v);
    }
  }

  lemma {:induction false} PaidRun(links: Links, p: Policy, events: seq<Event>)
    requires Run(links, p, events).Some?
    ensures Paid(Run(links, p, events).value)
    ensures var net := Run(links, p, events).value; |events| == net.injected + net.delivered + net.sweeps + net.worked
  {
    if events != [] {
      PaidRun(links, p, events[..|events| - 1]);
      PaidStep(links, Run(links, p, events[..|events| - 1]).value, events[|events| - 1]);
    } else {
      TotalOfNone(|links|, LeftOf);
    }
  }

  /** GOSSIP TERMINATES, whatever callers do.  However events interleave, a run that was given so
      many copies and so many sweeps is no longer than this. */
  lemma GossipEnds(links: Links, p: Policy, events: seq<Event>, degree: nat, universe: set<Hash>)
    requires Run(links, p, events).Some? && Degree(links, degree) && InjectedIn(events, universe)
    ensures var net := Run(links, p, events).value;
            |events| <= 8 * net.injected + 7 * (degree * (|universe| * (|links| + net.sweeps))) + 5 * net.sweeps
  {
    FloodsBounded(links, p, events, degree, universe, Digest(OrderBody(0, SellXno, 0, 0, 0, 0, 0)));
    PaidRun(links, p, events);
  }

  lemma CarefulGossipEnds(links: Links, events: seq<Event>, degree: nat, universe: set<Hash>)
    requires Run(links, Careful, events).Some? && Degree(links, degree) && InjectedIn(events, universe)
    ensures var net := Run(links, Careful, events).value;
            |events| <= 8 * net.injected + 7 * (degree * (|universe| * |links|)) + 5 * net.sweeps
  {
    CarefulFloods(links, events, degree, universe, Digest(OrderBody(0, SellXno, 0, 0, 0, 0, 0)));
    PaidRun(links, Careful, events);
  }
}
