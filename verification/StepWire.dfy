/** The step channels of web/two_party.js (`stepWire`) from the listening side.  A restarted peer
    sends on a fresh channel for each attempt; the receiver polls the channels of the attempts
    around its own count, and stays with the first that answers. */
module StepWire {
  import opened Common
  import opened Mailbox

  /** How far the two attempt counters may drift apart. */
  const DRIFT := 2

  /** One step, one direction: the mailbox is the same for all, the attempt is the key. */
  const BOX := 0

  predicate InWindow(mine: nat, a: nat) {
    1 <= a && mine - DRIFT <= a <= mine + DRIFT
  }

  // ---------- the receiver ----------

  /** A receiver at its own attempt `mine`, the peer's attempt it stays with, and what it got. */
  datatype Receiver = Receiver(mine: nat, locked: Option<nat>, delivered: seq<Msg>)

  predicate Listens(r: Receiver, a: nat) {
    InWindow(r.mine, a) && r.locked in {None, Some(a)}
  }

  /** A blob met on the channel of attempt `a`: this slot's message, or nothing. */
  function Heard(r: Receiver, a: nat, c: Cipher): Receiver {
    match OpenBlob(a, BOX, |r.delivered|, c)
    case None => r
    case Some(msg) => r.(locked := Some(a), delivered := r.delivered + [msg])
  }

  predicate Opens(blobs: map<nat, Cipher>, a: nat) {
    a in blobs && OpenBlob(a, BOX, 0, blobs[a]).Some?
  }

  /** Attempt a answers in round i, nothing having answered before, nor a lower attempt with it. */
  ghost predicate IsFirst(mine: nat, rounds: seq<map<nat, Cipher>>, i: nat, a: nat) {
    && i < |rounds| && InWindow(mine, a) && Opens(rounds[i], a)
    && (forall j: nat, b: nat :: 0 <= j < i && InWindow(mine, b) ==> !Opens(rounds[j], b))
    && (forall b: nat :: InWindow(mine, b) && b < a ==> !Opens(rounds[i], b))
  }

  class StepReceiver {
    const mine: nat
    var locked: Option<nat>
    var delivered: seq<Msg>

    ghost function State(): Receiver
      reads this
    {
      Receiver(mine, locked, delivered)
    }

    constructor (mine: nat)
      ensures State() == Receiver(mine, None, [])
    {
      this.mine := mine;
      locked, delivered := None, [];
    }

    /** `recv` before any channel has answered: round after round over the candidates, lowest
        attempt first, a channel that fails counting as silent.  `rounds` says which blob each
        channel meets.  The first message that opens decides the channel for good. */
    method RecvFirst(rounds: seq<map<nat, Cipher>>) returns (got: Option<Msg>)
      requires locked == None && delivered == []
      modifies this
      ensures got == None ==> State() == old(State())
      ensures got == None ==>
                forall i: nat, a: nat :: 0 <= i < |rounds| && InWindow(mine, a) ==> !Opens(rounds[i], a)
      ensures got.Some? ==>
                && locked.Some? && Listens(old(State()), locked.value) && delivered == [got.value]
                && exists i :: 0 <= i < |rounds| && IsFirst(mine, rounds, i, locked.value)
                               && State() == Heard(old(State()), locked.value, rounds[i][locked.value])
    {
      var lowest := if mine <= DRIFT then 1 else mine - DRIFT;
      for i := 0 to |rounds|
        invariant State() == old(State())
        invariant forall j: nat, a: nat :: 0 <= j < i && InWindow(mine, a) ==> !Opens(rounds[j], a)
      {
        for a := lowest to mine + DRIFT + 1
          invariant State() == old(State())
          invariant forall b: nat :: InWindow(mine, b) && b < a ==> !Opens(rounds[i], b)
        {
          if a in rounds[i] {
            var msg := OpenBlob(a, BOX, 0, rounds[i][a]);
            if msg.Some? {
              locked, delivered := Some(a), [msg.value];
              assert IsFirst(mine, rounds, i, a);
              return msg;
            }
          }
        }
      }
      got := None;
    }

    /** `recv` once a channel has answered: that channel alone, and its next slot. */
    method RecvLocked(blob: Option<Cipher>) returns (got: Option<Msg>)
      requires locked.Some?
      modifies this
      ensures State() == if blob == None then old(State()) else Heard(old(State()), old(locked.value), blob.value)
      ensures got.Some? <==> State() != old(State())
      ensures got.Some? ==> delivered == old(delivered) + [got.value]
    {
      got := if blob == None then None else OpenBlob(locked.value, BOX, |delivered|, blob.value);
      if got.Some? {
        delivered := delivered + [got.value];
      }
    }
  }

  // ---------- both sides, and relays that do as they please ----------

  /** `sent` lists, attempt by attempt, the messages the peer's sends were called with; `usable`
      says whether it may go on sending on the last.  `stored` is every blob a relay may have. */
  datatype Wire = Wire(sent: seq<seq<Msg>>, usable: bool, stored: set<Cipher>, open: bool, r: Receiver)

  const NewWire := Wire([], false, {}, false, Receiver(0, None, []))

  datatype Event =
    | PeerOpens                                     // counted before use: a fresh attempt
    | PeerSends(msg: Msg, taken: bool, kept: bool)  // not taken: the send throws; a relay may have it all the same
    | PeerStops
    | WeOpen
    | WeStop
    | Answer(a: nat, c: Cipher)                   // a relay answers our poll for attempt a

  predicate Can(w: Wire, e: Event) {
    match e
    case PeerSends(_, _, _) => w.usable && w.sent != []
    case Answer(a, c) => w.open && Listens(w.r, a) && (c in w.stored || c.Junk? || c.box != BOX)
    case _ => true
  }

  function Does(w: Wire, e: Event): Wire
    requires Can(w, e)
  {
    match e
    case PeerOpens => w.(sent := w.sent + [[]], usable := true)
    case PeerSends(msg, taken, kept) =>
      var last := |w.sent| - 1;
      var blob := Sealed(|w.sent|, BOX, |w.sent[last]|, msg);
      w.(sent := w.sent[last := w.sent[last] + [msg]], usable := taken,
         stored := if taken || kept then w.stored + {blob} else w.stored)
    case PeerStops => w.(usable := false)
    case WeOpen => w.(open := true, r := Receiver(w.r.mine + 1, None, []))
    case WeStop => w.(open := false)
    case Answer(a, c) => w.(r := Heard(w.r, a, c))
  }

  function RunWire(events: seq<Event>): Option<Wire> {
    if events == [] then Some(NewWire)
    else
      var before := RunWire(events[..|events| - 1]);
      if before.Some? && Can(before.value, events[|events| - 1]) then Some(Does(before.value, events[|events| - 1]))
      else None
  }

  /** All it got is the beginning of what the peer sent on one attempt near its own. */
  predicate OnOneAttempt(sent: seq<seq<Msg>>, r: Receiver) {
    match r.locked
    case None => r.delivered == []
    case Some(a) => InWindow(r.mine, a) && a <= |sent| && r.delivered <= sent[a - 1]
  }

  predicate InSlots(w: Wire) {
    forall c <- w.stored ::
      c.Sealed? && 1 <= c.key <= |w.sent| && c.seqNo < |w.sent[c.key - 1]|
      && c == Sealed(c.key, BOX, c.seqNo, w.sent[c.key - 1][c.seqNo])
  }

  lemma SentGrows(w: Wire, e: Event)
    requires Can(w, e)
    ensures |w.sent| <= |Does(w, e).sent| && forall i :: 0 <= i < |w.sent| ==> w.sent[i] <= Does(w, e).sent[i]
  {
  }

  lemma OneAttemptStep(w: Wire, e: Event)
    requires InSlots(w) && OnOneAttempt(w.sent, w.r) && Can(w, e)
    ensures InSlots(Does(w, e)) && OnOneAttempt(Does(w, e).sent, Does(w, e).r)
  {
    SentGrows(w, e);
    var v := Does(w, e);
    forall c | c in v.stored
      ensures c.Sealed? && 1 <= c.key <= |v.sent| && c.seqNo < |v.sent[c.key - 1]|
              && c == Sealed(c.key, BOX, c.seqNo, v.sent[c.key - 1][c.seqNo])
    {
      if c in w.stored {
        assert w.sent[c.key - 1] <= v.sent[c.key - 1];
      }
    }
  }

  /** ONE ATTEMPT.  However often either side stops and comes back, and whatever relays drop,
      delay, repeat, reorder or alter: what a receiver has got since it opened is a prefix of what
      the peer sent on a single attempt, at most two away from its own count; attempts are never
      mixed. */
  lemma {:induction false} OneAttempt(events: seq<Event>)
    requires RunWire(events).Some?
    ensures InSlots(RunWire(events).value) && OnOneAttempt(RunWire(events).value.sent, RunWire(events).value.r)
  {
    if events != [] {
      OneAttempt(events[..|events| - 1]);
      OneAttemptStep(RunWire(events[..|events| - 1]).value, events[|events| - 1]);
    }
  }

  // ---------- which attempts are heard ----------

  lemma Then(events: seq<Event>, w: Wire, e: Event) returns (longer: seq<Event>, v: Wire)
    requires RunWire(events) == Some(w) && Can(w, e)
    ensures RunWire(longer) == Some(v) && v == Does(w, e)
  {
    longer, v := events + [e], Does(w, e);
    assert longer[..|longer| - 1] == events;
  }

  /** The peer comes back until it is at attempt a. */
  lemma {:induction false} PeerAt(a: nat) returns (events: seq<Event>, w: Wire)
    ensures RunWire(events) == Some(w) && |w.sent| == a && w.stored == {} && w.r == NewWire.r && !w.open
    ensures a > 0 ==> w.usable && w.sent[a - 1] == []
  {
    if a == 0 {
      events, w := [], NewWire;
    } else {
      events, w := PeerAt(a - 1);
      events, w := Then(events, w, PeerOpens);
    }
  }

  lemma {:induction false} WeAt(events: seq<Event>, w: Wire, mine: nat) returns (longer: seq<Event>, v: Wire)
    requires RunWire(events) == Some(w) && w.r.mine == 0 && mine > 0
    ensures RunWire(longer) == Some(v) && v == w.(open := true, r := Receiver(mine, None, []))
  {
    if mine == 1 {
      longer, v := Then(events, w, WeOpen);
    } else {
      longer, v := WeAt(events, w, mine - 1);
      longer, v := Then(longer, v, WeOpen);
    }
  }

  ghost predicate CanHear(mine: nat, a: nat) {
    exists events ::
      RunWire(events).Some? && RunWire(events).value.r.mine == mine && RunWire(events).value.r.locked == Some(a)
  }

  /** HEARD, EXACTLY.  A receiver at its own attempt can ever take a message from the peer's
      attempt `a` if and only if the two counts are at most two apart. */
  lemma HeardExactly(mine: nat, a: nat)
    requires mine > 0
    ensures CanHear(mine, a) <==> 1 <= a && mine - 2 <= a <= mine + 2
  {
    if CanHear(mine, a) {
      var events :| RunWire(events).Some? && RunWire(events).value.r.mine == mine
                    && RunWire(events).value.r.locked == Some(a);
      OneAttempt(events);
    }
    if InWindow(mine, a) {
      var events, w := PeerAt(a);
      events, w := Then(events, w, PeerSends(1, true, true));
      events, w := WeAt(events, w, mine);
      events, w := Then(events, w, Answer(a, Sealed(a, BOX, 0, 1)));
      assert RunWire(events).value.r.locked == Some(a);
    }
  }

  // ---------- the first to answer, and the live one ----------

  /** The peer's first message on attempt a is there to be met. */
  predicate Posted(w: Wire, a: nat) {
    1 <= a <= |w.sent| && w.sent[a - 1] != [] && Sealed(a, BOX, 0, w.sent[a - 1][0]) in w.stored
  }

  /** Relays that keep everything, as the ledger does, and hand it all over. */
  predicate HandsAll(w: Wire, blobs: map<nat, Cipher>) {
    && (forall a <- blobs :: Posted(w, a) && blobs[a] == Sealed(a, BOX, 0, w.sent[a - 1][0]))
    && (forall a: nat | 1 <= a <= |w.sent| && Posted(w, a) :: a in blobs)
  }

  /** LIVE, EXACTLY.  With such relays the channel a fresh receiver settles on is the one the peer
      is using if and only if the peer left nothing on an earlier attempt still in the window. */
  lemma LiveExactly(w: Wire, mine: nat, blobs: map<nat, Cipher>, first: nat)
    requires HandsAll(w, blobs) && InWindow(mine, |w.sent|) && Posted(w, |w.sent|)
    requires IsFirst(mine, [blobs], 0, first)
    ensures first == |w.sent| <==> forall b: nat :: InWindow(mine, b) && b < |w.sent| ==> !Posted(w, b)
  {
    assert Opens(blobs, |w.sent|);
    assert forall b: nat | b in blobs :: Opens(blobs, b);
  }

  /** The peer opens a fresh attempt and its first message is taken. */
  lemma PeerTries(events: seq<Event>, w: Wire, msg: Msg) returns (longer: seq<Event>, v: Wire)
    requires RunWire(events) == Some(w)
    ensures RunWire(longer) == Some(v) && v.sent == w.sent + [[msg]] && v.usable
    ensures v.stored == w.stored + {Sealed(|w.sent| + 1, BOX, 0, msg)} && v.open == w.open && v.r == w.r
  {
    longer, v := Then(events, w, PeerOpens);
    assert v.sent == w.sent + [[]] && v.sent[|w.sent|] == [];
    longer, v := Then(longer, v, PeerSends(msg, true, true));
    assert [] + [msg] == [msg];
    assert v.sent == w.sent + [[msg]];
  }

  /** So a peer that once tried alone is not heard when it tries again: it left its first message
      on attempt 1, is now at attempt 2, and a receiver opening for the first time settles on 1,
      where nothing more will come. */
  lemma StaysWithAStaleAttempt() returns (events: seq<Event>, w: Wire)
    ensures RunWire(events) == Some(w) && w.sent == [[1], [2]] && w.usable
    ensures w.r == Receiver(1, Some(1), [1]) && InWindow(1, 2) && !Listens(w.r, 2)
    ensures forall c <- w.stored :: Heard(w.r, 1, c) == w.r
  {
    events, w := PeerTries([], NewWire, 1);
    events, w := PeerTries(events, w, 2);
    events, w := WeAt(events, w, 1);
    events, w := Then(events, w, Answer(1, Sealed(1, BOX, 0, 1)));
  }
}
