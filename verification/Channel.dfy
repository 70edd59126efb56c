/** The one-way channel of swap-core/channels/src/channel.rs. */
module Channel {
  import opened Common
  import opened NanoBlock

  type ChannelId = nat

  /** A ring signature as a term over everything it is verified against. */
  datatype Clsag = Clsag(ring: nat, keyImage: nat, pseudoOut: nat, msg: Bytes32) | Malformed

  datatype SignedState = SignedState(
    index: nat, takerAmount: nat, msg: Bytes32, clsag: Clsag, keyImage: nat, pseudoOut: nat)

  datatype ChannelError = NotMonotone | OverCapacity | Expired | WrongChannel | InvalidState | BadLifetime

  datatype ChunkRef = ChunkRef(channel: ChannelId, newTakerAmount: nat)

  /** The channel's fields as a value.  `ring` names the funding output's ring. */
  datatype View = View(
    id: ChannelId, capacity: nat, ring: nat, lifetimeCap: nat, horizonT2: nat,
    takerAmount: nat, stateIndex: nat, keyImage: Option<nat>)

  /** `expected_state_msg`. */
  function ExpectedMsg(v: View, takerAmount: nat, index: nat): Bytes32 {
    StateHash(v.id, v.capacity, takerAmount, index)
  }

  predicate VerifyClsag(clsag: Clsag, ring: nat, keyImage: nat, pseudoOut: nat, msg: Bytes32) {
    clsag == Clsag(ring, keyImage, pseudoOut, msg)
  }

  /** `accept_chunk_ref`. */
  function CheckChunkRef(v: View, r: ChunkRef, now: nat): Option<ChannelError> {
    if r.channel != v.id then Some(WrongChannel)
    else if now >= v.lifetimeCap then Some(Expired)
    else if r.newTakerAmount <= v.takerAmount then Some(NotMonotone)
    else if r.newTakerAmount > v.capacity then Some(OverCapacity)
    else None
  }

  /** The error `accept_state` refuses an offered state with, or None. */
  function CheckState(v: View, r: ChunkRef, now: nat, s: SignedState): Option<ChannelError> {
    var e := CheckChunkRef(v, r, now);
    if e.Some? then e
    else if s.takerAmount != r.newTakerAmount then Some(InvalidState)
    else if s.msg != ExpectedMsg(v, s.takerAmount, v.stateIndex + 1) then Some(InvalidState)
    else if !VerifyClsag(s.clsag, v.ring, s.keyImage, s.pseudoOut, s.msg) then Some(InvalidState)
    else if v.keyImage.Some? && v.keyImage.value != s.keyImage then Some(InvalidState)
    else None
  }

  function Advanced(v: View, s: SignedState): View {
    v.(takerAmount := s.takerAmount, stateIndex := v.stateIndex + 1, keyImage := Some(s.keyImage))
  }

  class ChannelState {
    const id: ChannelId
    const capacity: nat
    const ring: nat
    const lifetimeCap: nat
    const horizonT2: nat
    var takerAmount: nat
    var stateIndex: nat
    var keyImage: Option<nat>

    ghost function Now(): View
      reads this
    {
      View(id, capacity, ring, lifetimeCap, horizonT2, takerAmount, stateIndex, keyImage)
    }

    ghost predicate Valid()
      reads this
    {
      && lifetimeCap < horizonT2
      && stateIndex <= takerAmount <= capacity
      && (keyImage == None <==> stateIndex == 0)
    }

    constructor Fresh(id: ChannelId, capacity: nat, ring: nat, lifetimeCap: nat, horizonT2: nat)
      requires lifetimeCap < horizonT2
      ensures Valid() && Now() == View(id, capacity, ring, lifetimeCap, horizonT2, 0, 0, None)
    {
      this.id, this.capacity, this.ring := id, capacity, ring;
      this.lifetimeCap, this.horizonT2 := lifetimeCap, horizonT2;
      takerAmount, stateIndex, keyImage := 0, 0, None;
    }

    /** `open`: only with the lifetime cap strictly before the horizon. */
    static method Open(id: ChannelId, capacity: nat, ring: nat, lifetimeCap: nat, horizonT2: nat)
      returns (r: Result<ChannelState, ChannelError>)
      ensures r == Err(BadLifetime) <==> lifetimeCap >= horizonT2
      ensures lifetimeCap < horizonT2 ==>
              && r.Ok? && fresh(r.value) && r.value.Valid()
              && r.value.Now() == View(id, capacity, ring, lifetimeCap, horizonT2, 0, 0, None)
    {
      if lifetimeCap >= horizonT2 {
        return Err(BadLifetime);
      }
      var c := new ChannelState.Fresh(id, capacity, ring, lifetimeCap, horizonT2);
      r := Ok(c);
    }

    method AcceptChunkRef(r: ChunkRef, now: nat) returns (e: Option<ChannelError>)
      ensures e == CheckChunkRef(Now(), r, now)
      ensures e == None <==> r.channel == id && now < lifetimeCap && takerAmount < r.newTakerAmount <= capacity
    {
      if r.channel != id { return Some(WrongChannel); }
      if now >= lifetimeCap { return Some(Expired); }
      if r.newTakerAmount <= takerAmount { return Some(NotMonotone); }
      if r.newTakerAmount > capacity { return Some(OverCapacity); }
      e := None;
    }

    /** `accept_state`: a refused state changes nothing; an accepted one strictly raises the
        taker's slice within capacity, before the lifetime cap, under the one key image. */
    method AcceptState(r: ChunkRef, now: nat, s: SignedState) returns (res: Result<SignedState, ChannelError>)
      requires Valid()
      modifies this
      ensures Valid()
      ensures match CheckState(old(Now()), r, now, s)
              case Some(e) => res == Err(e) && Now() == old(Now())
              case None => res == Ok(s) && Now() == Advanced(old(Now()), s)
      ensures res.Ok? ==> old(takerAmount) < takerAmount <= capacity && now < lifetimeCap < horizonT2
      ensures res.Ok? && old(keyImage).Some? ==> keyImage == old(keyImage)
    {
      var e := AcceptChunkRef(r, now);
      if e.Some? { return Err(e.value); }
      if s.takerAmount != r.newTakerAmount { return Err(InvalidState); }
      if s.msg != StateHash(id, capacity, s.takerAmount, stateIndex + 1) { return Err(InvalidState); }
      if !VerifyClsag(s.clsag, ring, s.keyImage, s.pseudoOut, s.msg) { return Err(InvalidState); }
      match keyImage {
        case None => keyImage := Some(s.keyImage);
        case Some(image) => if image != s.keyImage { return Err(InvalidState); }
      }
      takerAmount := r.newTakerAmount;
      stateIndex := stateIndex + 1;
      res := Ok(s);
    }

    function MakerAmount(): nat
      requires takerAmount <= capacity
      reads this
    {
      capacity - takerAmount
    }

    /** `settlement_split`: the taker keeps its slice whole, the maker pays the fee, and the
        outputs and the fee are exactly the capacity; refused exactly when the maker's part
        cannot cover the fee or nothing would be left to pay out. */
    method SettlementSplit(fee: nat) returns (split: Option<(nat, nat)>)
      requires Valid()
      ensures split.Some? <==> fee <= capacity - takerAmount && fee < capacity
      ensures split.Some? ==> split.value.0 == takerAmount && split.value.0 + split.value.1 + fee == capacity
    {
      if capacity <= fee { return None; }
      if MakerAmount() < fee { return None; }
      split := Some((takerAmount, MakerAmount() - fee));
    }
  }

  // ---------- runs ----------

  /** One call of `accept_state`, whatever it is given. */
  datatype Offer = Offer(r: ChunkRef, now: nat, s: SignedState)

  predicate Opened(v: View) {
    v.lifetimeCap < v.horizonT2 && v.takerAmount == 0 && v.stateIndex == 0 && v.keyImage == None
  }

  datatype History = History(v: View, accepted: seq<SignedState>)

  function Offered(h: History, o: Offer): History {
    if CheckState(h.v, o.r, o.now, o.s) == None then History(Advanced(h.v, o.s), h.accepted + [o.s]) else h
  }

  /** The channel and the states it accepted, after any sequence of calls. */
  function Run(v: View, offers: seq<Offer>): History {
    if offers == [] then History(v, []) else Offered(Run(v, offers[..|offers| - 1]), offers[|offers| - 1])
  }

  predicate Monotone(h: History, open: View) {
    var n := |h.accepted|;
    && h.v == open.(takerAmount := h.v.takerAmount, stateIndex := n, keyImage := h.v.keyImage)
    && h.v.takerAmount == (if n == 0 then 0 else h.accepted[n - 1].takerAmount) <= h.v.capacity
    && (forall i :: 0 <= i < n ==> 0 < h.accepted[i].takerAmount <= h.v.capacity)
    && (forall i, j :: 0 <= i < j < n ==> h.accepted[i].takerAmount < h.accepted[j].takerAmount)
    && (forall i :: 0 <= i < n ==> h.v.keyImage == Some(h.accepted[i].keyImage))
    && (n == 0 ==> h.v.keyImage == None)
    && (forall i :: 0 <= i < n ==> SignsPlace(open, h.accepted[i], i + 1))
  }

  /** The state carries a ring signature over the channel's own funding ring, under its own key
      image and pseudo-out, of the canonical hash of its split at this place. */
  predicate SignsPlace(open: View, s: SignedState, index: nat) {
    && s.msg == StateHash(open.id, open.capacity, s.takerAmount, index)
    && s.clsag == Clsag(open.ring, s.keyImage, s.pseudoOut, s.msg)
  }

  /** MONOTONE CHANNEL.  Over any sequence of calls the accepted states strictly raise the
      taker's slice up to capacity, all under one key image, each validly signing its own place
      in the sequence. */
  lemma {:induction false} RunsAreMonotone(open: View, offers: seq<Offer>)
    requires Opened(open)
    ensures Monotone(Run(open, offers), open)
  {
    if offers != [] {
      RunsAreMonotone(open, offers[..|offers| - 1]);
    }
  }

  /** What makes an offer the next state of a channel, whose last accepted slice is `last`. */
  predicate Due(open: View, accepted: seq<SignedState>, o: Offer) {
    var n := |accepted|;
    var last := if n == 0 then 0 else accepted[n - 1].takerAmount;
    && o.r == ChunkRef(open.id, o.s.takerAmount) && o.now < open.lifetimeCap
    && last < o.s.takerAmount <= open.capacity
    && SignsPlace(open, o.s, n + 1)
    && (n > 0 ==> o.s.keyImage == accepted[0].keyImage)
  }

  /** ACCEPTED, EXACTLY.  After any calls, an offer is accepted if and only if it is the next state:
      named for this channel, in time, raising the slice within capacity, and signed for its place
      under the channel's key image.  Any other changes nothing. */
  lemma AcceptedExactly(open: View, offers: seq<Offer>, o: Offer)
    requires Opened(open)
    ensures var (h, v) := (Run(open, offers), Run(open, offers + [o]));
            if Due(open, h.accepted, o) then v.accepted == h.accepted + [o.s] else v == h
  {
    RunsAreMonotone(open, offers);
    assert (offers + [o])[..|offers|] == offers;
  }

  /** Every accepted state came with a reference that names this channel and its own slice, before
      the lifetime cap, and in the order of the calls. */
  lemma {:induction false} AcceptedWasOffered(open: View, offers: seq<Offer>) returns (from: seq<nat>)
    requires Opened(open)
    ensures var h := Run(open, offers);
            && |from| == |h.accepted|
            && (forall i :: 0 <= i < |from| ==>
                  && from[i] < |offers| && offers[from[i]].s == h.accepted[i]
                  && offers[from[i]].r == ChunkRef(open.id, h.accepted[i].takerAmount)
                  && offers[from[i]].now < open.lifetimeCap)
            && (forall i, j :: 0 <= i < j < |from| ==> from[i] < from[j])
  {
    if offers == [] {
      from := [];
    } else {
      var n := |offers| - 1;
      from := AcceptedWasOffered(open, offers[..n]);
      RunsAreMonotone(open, offers[..n]);
      AcceptedExactly(open, offers[..n], offers[n]);
      assert offers[..n] + [offers[n]] == offers;
      if Due(open, Run(open, offers[..n]).accepted, offers[n]) {
        from := from + [n];
      }
    }
  }

  /** Each refusal under its own condition, the first that applies. */
  lemma RefusedExactly(v: View, r: ChunkRef, now: nat, s: SignedState)
    ensures CheckState(v, r, now, s) == Some(WrongChannel) <==> r.channel != v.id
    ensures CheckState(v, r, now, s) == Some(Expired) <==> r.channel == v.id && now >= v.lifetimeCap
    ensures var inTime := r.channel == v.id && now < v.lifetimeCap;
            && (CheckState(v, r, now, s) == Some(NotMonotone) <==> inTime && r.newTakerAmount <= v.takerAmount)
            && (CheckState(v, r, now, s) == Some(OverCapacity) <==>
                inTime && r.newTakerAmount > v.takerAmount && r.newTakerAmount > v.capacity)
            && (CheckState(v, r, now, s) == Some(InvalidState) <==>
                inTime && v.takerAmount < r.newTakerAmount <= v.capacity
                && !(s.takerAmount == r.newTakerAmount && SignsPlace(v, s, v.stateIndex + 1)
                     && v.keyImage in {None, Some(s.keyImage)}))
  {
  }
}
