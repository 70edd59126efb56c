/** The Nano journal of channel states, swap-core/channels/src/journal.rs: anchoring,
    replay, and the judge that convicts a stale serve. */
module Journal {
  import opened Common
  import opened NanoBlock
  import Channel

  // ---------- the judge ----------

  /** A logged state: its index in the channel and its hash. */
  type Anchor = (nat, Bytes32)

  datatype ServeVerdict = Latest | Stale(servedPos: nat, tipPos: nat) | Unanchored

  /** The highest logged index. */
  function Tip(anchors: seq<Anchor>): (tip: nat)
    ensures forall i :: 0 <= i < |anchors| ==> anchors[i].0 <= tip
  {
    if anchors == [] then 0
    else
      var t := Tip(anchors[..|anchors| - 1]);
      var last := anchors[|anchors| - 1].0;
      if last > t then last else t
  }

  /** The index of the first entry logged under this hash. */
  function Lookup(anchors: seq<Anchor>, served: Bytes32): Option<nat> {
    if anchors == [] then None
    else if anchors[0].1 == served then Some(anchors[0].0)
    else Lookup(anchors[1..], served)
  }

  /** `judge_served_indexed`. */
  function Judge(anchors: seq<Anchor>, served: Bytes32): ServeVerdict {
    match Lookup(anchors, served)
    case None => Unanchored
    case Some(i) => if i == Tip(anchors) then Latest else Stale(i, Tip(anchors))
  }

  lemma {:induction false} LookupAppends(anchors: seq<Anchor>, more: seq<Anchor>, served: Bytes32)
    ensures Lookup(anchors, served).Some? ==> Lookup(anchors + more, served) == Lookup(anchors, served)
  {
    if anchors != [] {
      assert (anchors + more)[1..] == anchors[1..] + more;
      LookupAppends(anchors[1..], more, served);
    }
  }

  lemma {:induction false} TipGrows(anchors: seq<Anchor>, more: seq<Anchor>)
    ensures Tip(anchors + more) >= Tip(anchors)
  {
    if more == [] {
      assert anchors + more == anchors;
    } else {
      assert (anchors + more)[..|anchors + more| - 1] == anchors + more[..|more| - 1];
      TipGrows(anchors, more[..|more| - 1]);
    }
  }

  /** A found index is the one logged with that hash; a hash not found is not logged. */
  lemma {:induction false} LookupWithin(anchors: seq<Anchor>, served: Bytes32) returns (k: nat)
    ensures Lookup(anchors, served).Some? ==> k < |anchors| && anchors[k] == (Lookup(anchors, served).value, served)
    ensures Lookup(anchors, served) == None ==> forall i :: 0 <= i < |anchors| ==> anchors[i].1 != served
  {
    k := 0;
    if anchors != [] && anchors[0].1 != served {
      var j := LookupWithin(anchors[1..], served);
      k := j + 1;
    }
  }

  /** NO LAUNDERING.  Whatever is appended to the log, forged duplicates of any index included,
      a stale state stays convicted, under its own index. */
  lemma StaleStaysStale(anchors: seq<Anchor>, more: seq<Anchor>, served: Bytes32)
    requires Judge(anchors, served).Stale?
    ensures Judge(anchors + more, served).Stale?
    ensures Judge(anchors + more, served).servedPos == Judge(anchors, served).servedPos
  {
    LookupAppends(anchors, more, served);
    TipGrows(anchors, more);
    var k := LookupWithin(anchors, served);
  }

  lemma {:induction false} TipIsLogged(anchors: seq<Anchor>) returns (k: nat)
    requires anchors != []
    ensures k < |anchors| && anchors[k].0 == Tip(anchors)
  {
    k := |anchors| - 1;
    if |anchors| > 1 && Tip(anchors[..k]) >= anchors[k].0 {
      k := TipIsLogged(anchors[..k]);
    }
  }

  /** `anchor_with_index`, for every state a channel accepted: its hash under its index. */
  function LogOf(accepted: seq<Channel.SignedState>): seq<Anchor> {
    seq(|accepted|, i requires 0 <= i < |accepted| => (i + 1, accepted[i].msg))
  }

  lemma TipOfLog(accepted: seq<Channel.SignedState>)
    ensures Tip(LogOf(accepted)) == |accepted|
  {
    var log := LogOf(accepted);
    if log != [] {
      var t := TipIsLogged(log);
      assert log[|log| - 1].0 == |log|;
    }
  }

  /** EXACT VERDICTS.  Against the log of any channel's run the judge says Latest exactly for
      the newest accepted state, Stale with both positions for each older one, and Unanchored
      exactly for what the channel never accepted. */
  lemma JudgedExactly(open: Channel.View, offers: seq<Channel.Offer>, served: Bytes32)
    requires Channel.Opened(open)
    ensures var accepted := Channel.Run(open, offers).accepted;
            var n := |accepted|;
            var verdict := Judge(LogOf(accepted), served);
            && (verdict == Latest <==> n > 0 && served == accepted[n - 1].msg)
            && (forall i :: 0 <= i < n - 1 && served == accepted[i].msg ==> verdict == Stale(i + 1, n))
            && (verdict == Unanchored <==> forall i :: 0 <= i < n ==> served != accepted[i].msg)
  {
    Channel.RunsAreMonotone(open, offers);
    var accepted := Channel.Run(open, offers).accepted;
    var log := LogOf(accepted);
    TipOfLog(accepted);
    var k := LookupWithin(log, served);
    if Lookup(log, served).Some? {
      assert Lookup(log, served).value == k + 1 && served == accepted[k].msg;
      forall i | 0 <= i < |accepted| && served == accepted[i].msg ensures i == k {
        assert accepted[i].msg.index == i + 1 && accepted[k].msg.index == k + 1;
      }
    } else {
      forall i | 0 <= i < |accepted| ensures served != accepted[i].msg {
        assert log[i].1 == accepted[i].msg;
      }
    }
  }

  // ---------- anchoring and replay ----------

  /** `anchor_block`: a 1-raw send to the state hash, impossible from an empty account. */
  function AnchorBlock(account: Bytes32, previous: Bytes32, representative: Bytes32,
                       balanceBefore: nat, msg: Bytes32): Option<StateBlock>
  {
    if balanceBefore < 1 then None
    else Some(StateBlock(account, previous, representative, balanceBefore - 1, msg, Send))
  }

  /** A block that sends exactly 1 raw. */
  predicate IsAnchor(before: nat, b: StateBlock) {
    b.subtype == Send && before == b.balance + 1
  }

  function Replayed(blocks: seq<StateBlock>): seq<Bytes32> {
    if |blocks| <= 1 then []
    else
      var n := |blocks| - 1;
      Replayed(blocks[..n]) + if IsAnchor(blocks[n - 1].balance, blocks[n]) then [blocks[n].link] else []
  }

  /** `replay`. */
  method Replay(blocks: seq<StateBlock>) returns (anchors: seq<Bytes32>)
    ensures anchors == Replayed(blocks)
  {
    anchors := [];
    var prevBalance: Option<nat> := None;
    for i := 0 to |blocks|
      invariant anchors == Replayed(blocks[..i])
      invariant prevBalance == if i == 0 then None else Some(blocks[i - 1].balance)
    {
      assert blocks[..i + 1][..i] == blocks[..i];
      var b := blocks[i];
      if prevBalance.Some? && b.subtype == Send && prevBalance.value == b.balance + 1 {
        anchors := anchors + [b.link];
      }
      prevBalance := Some(b.balance);
    }
    assert blocks[..|blocks|] == blocks;
  }

  /** What a journal account does next: anchor a state, or anything that is not a 1-raw send. */
  datatype Entry = Anchoring(msg: Bytes32) | Other(block: StateBlock)

  /** The account's chain after an entry; it stays as it was when the entry cannot be made. */
  function Appended(chain: seq<StateBlock>, e: Entry): seq<StateBlock>
    requires chain != []
  {
    var last := chain[|chain| - 1];
    match e
    case Anchoring(msg) =>
      (match AnchorBlock(last.account, last.Hash(), last.representative, last.balance, msg)
       case None => chain
       case Some(b) => chain + [b])
    case Other(b) => if b.subtype == Send && b.balance == last.balance - 1 then chain else chain + [b]
  }

  /** The chain built from an opening block, and the states anchored on the way. */
  function Written(first: StateBlock, entries: seq<Entry>): (chain: seq<StateBlock>)
    ensures chain != []
  {
    if entries == [] then [first] else Appended(Written(first, entries[..|entries| - 1]), entries[|entries| - 1])
  }

  function Anchored(first: StateBlock, entries: seq<Entry>): seq<Bytes32> {
    if entries == [] then []
    else
      var before := entries[..|entries| - 1];
      var chain := Written(first, before);
      var e := entries[|entries| - 1];
      Anchored(first, before) + if e.Anchoring? && chain[|chain| - 1].balance > 0 then [e.msg] else []
  }

  /** JOURNAL ROUND TRIP.  Replaying a journal account's chain recovers exactly the states
      anchored in it, in order, whatever else the account did in between. */
  lemma {:induction false} ReplayRecovers(first: StateBlock, entries: seq<Entry>)
    ensures Replayed(Written(first, entries)) == Anchored(first, entries)
  {
    if entries != [] {
      var before := entries[..|entries| - 1];
      ReplayRecovers(first, before);
      var chain := Written(first, before);
      var longer := Written(first, entries);
      if longer != chain {
        assert longer[..|chain|] == chain;
      }
    }
  }
}
