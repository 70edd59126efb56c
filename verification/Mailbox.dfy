/** The ordered wire over untrusted relays (web/mailbox.js), and the per-step channels a
    restarted driver opens (`stepWire`, web/two_party.js). */
module Mailbox {
  import opened Common

  type Msg = nat

  /** Authenticated encryption as a term: a blob opens only under the key, mailbox and
      sequence number it was sealed for. */
  datatype Cipher = Sealed(key: nat, box: nat, seqNo: nat, plain: Msg) | Junk(bytes: nat)

  function OpenBlob(key: nat, box: nat, seqNo: nat, c: Cipher): Option<Msg> {
    if c.Sealed? && c.key == key && c.box == box && c.seqNo == seqNo then Some(c.plain) else None
  }

  // ---------- one end of a wire ----------

  const SEND_ROUNDS := 4

  datatype Received = Message(msg: Msg) | Rejected | TimedOut

  /** Whether some relay accepted the post in one of the first `rounds` rounds. */
  predicate Posted(answers: seq<seq<bool>>, rounds: nat) {
    exists i, j :: 0 <= i < rounds && i < |answers| && 0 <= j < |answers[i]| && answers[i][j]
  }

  /** The first blob any relay hands over. */
  function FirstIn(poll: seq<Option<Cipher>>): Option<Cipher> {
    if poll == [] then None else if poll[0].Some? then poll[0] else FirstIn(poll[1..])
  }

  function FirstBlob(polls: seq<seq<Option<Cipher>>>): Option<Cipher> {
    if polls == [] then None
    else
      var here := FirstIn(polls[0]);
      if here.Some? then here else FirstBlob(polls[1..])
  }

  predicate SilentBefore(polls: seq<seq<Option<Cipher>>>, i: nat, j: nat) {
    && (forall k, l :: 0 <= k < i && k < |polls| && 0 <= l < |polls[k]| ==> polls[k][l] == None)
    && (i < |polls| ==> forall l :: 0 <= l < j && l < |polls[i]| ==> polls[i][l] == None)
  }

  /** It is the earliest of all: no relay had any in a round before, nor an earlier relay in its own. */
  lemma {:induction false} FirstBlobIs(polls: seq<seq<Option<Cipher>>>) returns (i: nat, j: nat)
    ensures FirstBlob(polls).Some? ==>
              i < |polls| && j < |polls[i]| && polls[i][j] == FirstBlob(polls) && SilentBefore(polls, i, j)
    ensures FirstBlob(polls) == None ==> SilentBefore(polls, |polls|, 0)
  {
    i, j := 0, 0;
    if polls != [] {
      j := FirstInIs(polls[0]);
      if FirstIn(polls[0]) == None {
        i, j := FirstBlobIs(polls[1..]);
        i := i + 1;
        assert forall k :: 0 < k < |polls| ==> polls[k] == polls[1..][k - 1];
      }
    }
  }

  lemma {:induction false} FirstInIs(poll: seq<Option<Cipher>>) returns (j: nat)
    ensures FirstIn(poll).Some? ==>
              j < |poll| && poll[j] == FirstIn(poll) && forall l :: 0 <= l < j ==> poll[l] == None
    ensures FirstIn(poll) == None ==> forall l :: 0 <= l < |poll| ==> poll[l] == None
  {
    j := 0;
    if poll != [] && poll[0] == None {
      j := FirstInIs(poll[1..]);
      j := j + 1;
    }
  }

  class MailboxWire {
    const key: nat
    const sendBox: nat
    const recvBox: nat
    var sseq: nat
    var rseq: nat

    constructor (key: nat, sendBox: nat, recvBox: nat)
      ensures this.key == key && this.sendBox == sendBox && this.recvBox == recvBox
      ensures sseq == 0 && rseq == 0
    {
      this.key, this.sendBox, this.recvBox := key, sendBox, recvBox;
      sseq, rseq := 0, 0;
    }

    /** `send`: up to four rounds over the relays, every post the same blob; the sequence
        number moves on exactly when a relay took it. */
    method Send(msg: Msg, answers: seq<seq<bool>>) returns (ok: bool, posts: seq<Cipher>)
      modifies this
      ensures ok <==> Posted(answers, SEND_ROUNDS)
      ensures forall c <- posts :: c == Sealed(key, sendBox, old(sseq), msg)
      ensures ok ==> posts != []
      ensures sseq == (if ok then old(sseq) + 1 else old(sseq)) && rseq == old(rseq)
    {
      var ct := Sealed(key, sendBox, sseq, msg);
      ok, posts := false, [];
      var round := 0;
      while round < SEND_ROUNDS && !ok
        invariant 0 <= round <= SEND_ROUNDS
        invariant forall c <- posts :: c == ct
        invariant ok ==> posts != []
        invariant ok <==> Posted(answers, round)
      {
        if round < |answers| {
          var r := 0;
          while r < |answers[round]| && !ok
            invariant 0 <= r <= |answers[round]|
            invariant forall c <- posts :: c == ct
            invariant ok ==> posts != []
            invariant ok <==> exists j :: 0 <= j < r && answers[round][j]
          {
            posts := posts + [ct];
            ok := answers[round][r];
            r := r + 1;
          }
        }
        round := round + 1;
      }
      if ok {
        sseq := sseq + 1;
      }
    }

    /** `recv`: the first blob handed over decides: it opens as this slot's message, or the
        call fails and the slot stays where it was. */
    method Recv(polls: seq<seq<Option<Cipher>>>) returns (r: Received)
      modifies this
      ensures sseq == old(sseq)
      ensures match FirstBlob(polls)
              case None => r == TimedOut && rseq == old(rseq)
              case Some(c) =>
                (match OpenBlob(key, recvBox, old(rseq), c)
                 case None => r == Rejected && rseq == old(rseq)
                 case Some(m) => r == Message(m) && rseq == old(rseq) + 1)
    {
      for i := 0 to |polls|
        invariant rseq == old(rseq) && sseq == old(sseq)
        invariant FirstBlob(polls) == FirstBlob(polls[i..])
      {
        assert polls[i..][1..] == polls[i + 1..];
        for j := 0 to |polls[i]|
          invariant rseq == old(rseq) && sseq == old(sseq)
          invariant FirstIn(polls[i]) == FirstIn(polls[i][j..])
        {
          assert polls[i][j..][1..] == polls[i][j + 1..];
          if polls[i][j].Some? {
            var pt := OpenBlob(key, recvBox, rseq, polls[i][j].value);
            if pt == None { return Rejected; }
            rseq := rseq + 1;
            return Message(pt.value);
          }
        }
      }
      r := TimedOut;
    }
  }

  // ---------- a sender, a receiver, and relays that do as they please ----------

  /** One direction of a wire.  `sent` lists the messages `send` was called with, the last of
      them perhaps in vain; `stored` is every blob of this direction a relay may have. */
  datatype Link = Link(
    key: nat, box: nat, sent: seq<Msg>, sseq: nat, threw: bool, stored: set<Cipher>, delivered: seq<Msg>)

  function NewLink(key: nat, box: nat): Link {
    Link(key, box, [], 0, false, {}, [])
  }

  datatype Move =
    | SendTaken(msg: Msg)               // some relay took the blob
    | SendThrew(msg: Msg, kept: bool)   // none said so; one may have it all the same
    | HandOver(c: Cipher)               // a relay answers the receiver's poll

  /** What the relays can hand over: nothing sealed for this direction except what they were
      given, and anything else at all. */
  predicate CanHandOver(l: Link, c: Cipher) {
    c in l.stored || c.Junk? || c.key != l.key || c.box != l.box
  }

  predicate Possible(l: Link, m: Move, reuse: bool) {
    match m
    case SendTaken(_) => reuse || !l.threw
    case SendThrew(_, _) => reuse || !l.threw
    case HandOver(c) => CanHandOver(l, c)
  }

  function Moved(l: Link, m: Move): Link {
    match m
    case SendTaken(msg) =>
      l.(sent := l.sent + [msg], sseq := l.sseq + 1, stored := l.stored + {Sealed(l.key, l.box, l.sseq, msg)})
    case SendThrew(msg, kept) =>
      l.(sent := l.sent + [msg], threw := true,
         stored := if kept then l.stored + {Sealed(l.key, l.box, l.sseq, msg)} else l.stored)
    case HandOver(c) =>
      match OpenBlob(l.key, l.box, |l.delivered|, c)
      case None => l
      case Some(msg) => l.(delivered := l.delivered + [msg])
  }

  /** `reuse` says whether a wire goes on being used after its send threw. */
  function Run(l: Link, moves: seq<Move>, reuse: bool): Option<Link> {
    if moves == [] then Some(l)
    else
      var before := Run(l, moves[..|moves| - 1], reuse);
      if before.Some? && Possible(before.value, moves[|moves| - 1], reuse) then
        Some(Moved(before.value, moves[|moves| - 1]))
      else None
  }

  predicate InOrder(l: Link) {
    && l.sseq == |l.sent| - (if l.threw then 1 else 0)
    && (forall c <- l.stored :: c.Sealed? && c.seqNo < |l.sent| && c == Sealed(l.key, l.box, c.seqNo, l.sent[c.seqNo]))
    && l.delivered <= l.sent
  }

  /** ORDERED DELIVERY.  Dropping, delaying, repeating, reordering and altering blobs, the
      relays can make the receiver see less, never anything but a prefix of what was sent. */
  lemma {:induction false} DeliversPrefix(key: nat, box: nat, moves: seq<Move>)
    requires Run(NewLink(key, box), moves, false).Some?
    ensures InOrder(Run(NewLink(key, box), moves, false).value)
  {
    if moves != [] {
      DeliversPrefix(key, box, moves[..|moves| - 1]);
    }
  }

  ghost predicate AlwaysPrefix(reuse: bool) {
    forall key, box, moves ::
      Run(NewLink(key, box), moves, reuse).Some? ==>
        Run(NewLink(key, box), moves, reuse).value.delivered <= Run(NewLink(key, box), moves, reuse).value.sent
  }

  /** Delivery is ordered exactly when a wire is dropped once its send threw. */
  lemma PrefixExactly(reuse: bool)
    ensures AlwaysPrefix(reuse) <==> !reuse
  {
    if !reuse {
      forall key, box, moves | Run(NewLink(key, box), moves, reuse).Some?
        ensures Run(NewLink(key, box), moves, reuse).value.delivered <= Run(NewLink(key, box), moves, reuse).value.sent
      {
        DeliversPrefix(key, box, moves);
      }
    } else {
      // the first message never reached a relay, the second takes its slot
      var l := NewLink(0, 0);
      ThenMove(l, [], SendThrew(1, false), reuse);
      ThenMove(l, [SendThrew(1, false)], SendTaken(2), reuse);
      ThenMove(l, [SendThrew(1, false)] + [SendTaken(2)], HandOver(Sealed(0, 0, 0, 2)), reuse);
      var end := Run(l, [SendThrew(1, false)] + [SendTaken(2)] + [HandOver(Sealed(0, 0, 0, 2))], reuse).value;
      assert end.sent == [1, 2] && end.delivered == [2];
      assert end.delivered[0] != end.sent[0];
    }
  }

  lemma ThenMove(l: Link, moves: seq<Move>, m: Move, reuse: bool)
    requires Run(l, moves, reuse).Some? && Possible(Run(l, moves, reuse).value, m, reuse)
    ensures Run(l, moves + [m], reuse) == Some(Moved(Run(l, moves, reuse).value, m))
    ensures [] + [m] == [m]
  {
    assert (moves + [m])[..|moves|] == moves;
  }

  // ---------- fresh channels for a restarted driver ----------

  /** A slot of a step channel, and what was sealed into it. */
  datatype Use = Use(step: nat, attempt: nat, seqNo: nat, plain: Msg)

  datatype StepChannel = StepChannel(step: nat, attempt: nat, sseq: nat)

  /** A driver's attempt counters (kept across crashes when it has a store), its open channel
      (never kept), and everything it ever sealed. */
  datatype Driver = Driver(hasStore: bool, attempts: map<nat, nat>, channel: Option<StepChannel>, uses: set<Use>)

  function NewDriver(hasStore: bool): Driver {
    Driver(hasStore, map[], None, {})
  }

  datatype Event =
    | OpenStep(step: nat)
    | SealOn(plain: Msg, taken: bool)
    | Crash

  function LastAttempt(d: Driver, step: nat): nat {
    if step in d.attempts then d.attempts[step] else 0
  }

  function After(d: Driver, e: Event): Driver {
    match e
    case OpenStep(step) =>
      var my := LastAttempt(d, step) + 1;
      d.(attempts := if d.hasStore then d.attempts[step := my] else d.attempts,
         channel := Some(StepChannel(step, my, 0)))
    case SealOn(plain, taken) =>
      if d.channel == None then d
      else
        var c := d.channel.value;
        // a send that throws ends the driver's use of the channel
        d.(uses := d.uses + {Use(c.step, c.attempt, c.sseq, plain)},
           channel := if taken then Some(c.(sseq := c.sseq + 1)) else None)
    case Crash => d.(channel := None)
  }

  function AfterAll(d: Driver, events: seq<Event>): Driver {
    if events == [] then d else After(AfterAll(d, events[..|events| - 1]), events[|events| - 1])
  }

  predicate NoSlotTwice(d: Driver) {
    forall u <- d.uses, v <- d.uses ::
      u.step == v.step && u.attempt == v.attempt && u.seqNo == v.seqNo ==> u.plain == v.plain
  }

  predicate Counted(d: Driver) {
    && NoSlotTwice(d)
    && (forall u <- d.uses :: u.attempt <= LastAttempt(d, u.step))
    && (d.channel.Some? ==>
        var c := d.channel.value;
        && c.attempt == LastAttempt(d, c.step)
        && forall u <- d.uses :: u.step == c.step && u.attempt == c.attempt ==> u.seqNo < c.sseq)
  }

  lemma CountedStep(d: Driver, e: Event)
    requires d.hasStore && Counted(d)
    ensures Counted(After(d, e)) && After(d, e).hasStore
  {
  }

  /** NO NONCE TWICE.  Wherever the driver crashes and however often it comes back, no (step,
      attempt, sequence) slot is sealed with two different plaintexts. */
  lemma {:induction false} SlotsAreFresh(events: seq<Event>)
    ensures AfterAll(NewDriver(true), events).hasStore && Counted(AfterAll(NewDriver(true), events))
  {
    if events != [] {
      SlotsAreFresh(events[..|events| - 1]);
      CountedStep(AfterAll(NewDriver(true), events[..|events| - 1]), events[|events| - 1]);
    }
  }

  ghost predicate AlwaysFresh(hasStore: bool) {
    forall events :: NoSlotTwice(AfterAll(NewDriver(hasStore), events))
  }

  /** The persisted counter is what does it: freshness holds exactly with a store attached. */
  lemma FreshExactly(hasStore: bool)
    ensures AlwaysFresh(hasStore) <==> hasStore
  {
    if hasStore {
      forall events ensures NoSlotTwice(AfterAll(NewDriver(hasStore), events)) {
        SlotsAreFresh(events);
      }
    } else {
      var d := NewDriver(false);
      var once := [OpenStep(0)] + [SealOn(1, true)];
      ThenEvent(d, [], OpenStep(0));
      ThenEvent(d, [OpenStep(0)], SealOn(1, true));
      ThenEvent(d, once, OpenStep(0));
      ThenEvent(d, once + [OpenStep(0)], SealOn(2, true));
      var end := AfterAll(d, once + [OpenStep(0)] + [SealOn(2, true)]);
      assert Use(0, 1, 0, 1) in end.uses && Use(0, 1, 0, 2) in end.uses;
    }
  }

  lemma ThenEvent(d: Driver, events: seq<Event>, e: Event)
    ensures AfterAll(d, events + [e]) == After(AfterAll(d, events), e)
    ensures [] + [e] == [e]
  {
    assert (events + [e])[..|events|] == events;
  }

  /** `stepWire` and the sends on what it returns, as the driver does them. */
  class ResumableDriver {
    const hasStore: bool
    var attempts: map<nat, nat>
    var channel: Option<StepChannel>
    ghost var uses: set<Use>

    ghost function State(): Driver
      reads this
    {
      Driver(hasStore, attempts, channel, uses)
    }

    constructor (hasStore: bool)
      ensures State() == NewDriver(hasStore)
    {
      this.hasStore := hasStore;
      attempts, channel, uses := map[], None, {};
    }

    /** The attempt is written down before the channel is used. */
    method OpenChannel(step: nat) returns (c: StepChannel)
      modifies this
      ensures State() == After(old(State()), OpenStep(step))
      ensures channel == Some(c)
      ensures hasStore && old(Counted(State())) ==> Counted(State())
    {
      var my := (if step in attempts then attempts[step] else 0) + 1;
      if hasStore {
        attempts := attempts[step := my];
      }
      c := StepChannel(step, my, 0);
      channel := Some(c);
    }

    method SendOn(plain: Msg, taken: bool)
      modifies this
      ensures State() == After(old(State()), SealOn(plain, taken))
      ensures hasStore && old(Counted(State())) ==> Counted(State())
    {
      if channel.Some? {
        var c := channel.value;
        uses := uses + {Use(c.step, c.attempt, c.sseq, plain)};
        channel := if taken then Some(c.(sseq := c.sseq + 1)) else None;
      }
    }
  }
}
