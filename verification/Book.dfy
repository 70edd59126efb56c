/** The consolidated order book of swap-core/dex-core/src/book.rs: an ordered map from
    (rate, order hash) to entries, kept as its strictly increasing list of entries. */
module Book {
  import opened Orders

  datatype BookEntry = BookEntry(order: SignedOrder, lastSeen: nat, pofVerified: bool)

  function Rate(e: BookEntry): nat { e.order.body.ratePico }
  function Key(e: BookEntry): Hash { HashOf(e.order) }

  predicate Less(a: BookEntry, b: BookEntry) {
    Rate(a) < Rate(b) || (Rate(a) == Rate(b) && HashLess(Key(a), Key(b)))
  }

  lemma LessIsTotal(a: BookEntry, b: BookEntry)
    ensures Key(a) == Key(b) <==> !Less(a, b) && !Less(b, a)
    ensures !(Less(a, b) && Less(b, a))
  {
    HashOrderIsTotal(Key(a), Key(b));
  }

  lemma LessIsTransitive(a: BookEntry, b: BookEntry, c: BookEntry)
    requires Less(a, b) && Less(b, c)
    ensures Less(a, c)
  {
    if Rate(a) == Rate(b) == Rate(c) {
      HashOrderIsTransitive(Key(a), Key(b), Key(c));
    }
  }

  predicate Sorted(es: seq<BookEntry>) {
    forall i, j :: 0 <= i < j < |es| ==> Less(es[i], es[j])
  }

  function Hashes(es: seq<BookEntry>): set<Hash> {
    set e <- es :: Key(e)
  }

  /** Sortedness makes the hash a key. */
  lemma KeysAreUnique(es: seq<BookEntry>, i: nat, j: nat)
    requires Sorted(es) && i < |es| && j < |es| && Key(es[i]) == Key(es[j])
    ensures i == j
  {
    LessIsTotal(es[i], es[j]);
  }

  // ---------- insert ----------

  function Inserted(es: seq<BookEntry>, e: BookEntry): seq<BookEntry> {
    if es == [] then [e]
    else if Less(e, es[0]) then [e] + es
    else if Key(e) == Key(es[0]) then [e] + es[1..]
    else [es[0]] + Inserted(es[1..], e)
  }

  lemma {:induction false} InsertedIs(es: seq<BookEntry>, e: BookEntry)
    requires Sorted(es)
    ensures Sorted(Inserted(es, e))
    ensures forall x :: x in Inserted(es, e) <==> x == e || (x in es && Key(x) != Key(e))
    ensures |Inserted(es, e)| == if Key(e) in Hashes(es) then |es| else |es| + 1
  {
    var r := Inserted(es, e);
    if es == [] {
    } else {
      LessIsTotal(e, es[0]);
      if Less(e, es[0]) {
        forall i | 0 <= i < |es| ensures Less(e, es[i]) {
          if i > 0 { LessIsTransitive(e, es[0], es[i]); }
        }
        forall x <- es ensures Key(x) != Key(e) {
          LessIsTotal(e, x);
        }
      } else if Key(e) == Key(es[0]) {
        forall i | 0 < i < |es| ensures Less(e, es[i]) && Key(es[i]) != Key(e) {
          assert Less(es[0], es[i]);
          LessIsTotal(e, es[i]);
        }
      } else {
        InsertedIs(es[1..], e);
        var rest := Inserted(es[1..], e);
        forall x <- rest ensures Less(es[0], x) {
        }
        assert es == [es[0]] + es[1..];
        assert Hashes(es) == {Key(es[0])} + Hashes(es[1..]);
      }
    }
  }

  // ---------- sweep ----------

  predicate LiveAt(e: BookEntry, now: nat) {
    e.order.body.expiry > now
  }

  function Live(es: seq<BookEntry>, now: nat): seq<BookEntry> {
    if es == [] then []
    else Live(es[..|es| - 1], now) + if LiveAt(es[|es| - 1], now) then [es[|es| - 1]] else []
  }

  function Dropped(es: seq<BookEntry>, now: nat): seq<Hash> {
    if es == [] then []
    else Dropped(es[..|es| - 1], now) + if LiveAt(es[|es| - 1], now) then [] else [Key(es[|es| - 1])]
  }

  /** A sweep keeps exactly the live entries, still in order... */
  lemma {:induction false} LiveIs(es: seq<BookEntry>, now: nat)
    requires Sorted(es)
    ensures Sorted(Live(es, now))
    ensures forall x :: x in Live(es, now) <==> x in es && LiveAt(x, now)
  {
    if es != [] {
      var front, last := es[..|es| - 1], es[|es| - 1];
      assert es == front + [last];
      LiveIs(front, now);
      forall x | x in Live(front, now) ensures Less(x, last) {
        var i :| 0 <= i < |front| && front[i] == x;
        assert es[i] == x;
      }
    }
  }

  /** ...and reports exactly the hashes of the others, each once. */
  lemma {:induction false} DroppedIs(es: seq<BookEntry>, now: nat)
    ensures forall h :: h in Dropped(es, now) <==> h in Hashes(es) && h.body.expiry <= now
    ensures |Live(es, now)| + |Dropped(es, now)| == |es|
  {
    if es != [] {
      var front, last := es[..|es| - 1], es[|es| - 1];
      assert es == front + [last];
      DroppedIs(front, now);
      assert Hashes(es) == Hashes(front) + {Key(last)};
    }
  }

  /** What the book had is what it keeps plus what it reports dropped, with nothing in both. */
  lemma SweepSplits(es: seq<BookEntry>, now: nat)
    requires Sorted(es)
    ensures Hashes(es) == Hashes(Live(es, now)) + (set h <- Dropped(es, now))
    ensures Hashes(Live(es, now)) !! (set h <- Dropped(es, now))
    ensures forall h <- Hashes(Live(es, now)) :: h.body.expiry > now
  {
    LiveIs(es, now);
    DroppedIs(es, now);
  }

  // ---------- one side, best price first ----------

  function OfSide(es: seq<BookEntry>, side: Side): seq<BookEntry> {
    if es == [] then []
    else OfSide(es[..|es| - 1], side) + if es[|es| - 1].order.body.side == side then [es[|es| - 1]] else []
  }

  function Reversed(es: seq<BookEntry>): seq<BookEntry> {
    seq(|es|, i requires 0 <= i < |es| => es[|es| - 1 - i])
  }

  function SideView(es: seq<BookEntry>, side: Side): seq<BookEntry> {
    if side == SellXmr then Reversed(OfSide(es, side)) else OfSide(es, side)
  }

  /** `a` is no worse a price than `b` for a taker hitting this side. */
  predicate NoWorse(side: Side, a: BookEntry, b: BookEntry) {
    if side == SellXno then Rate(a) <= Rate(b) else Rate(a) >= Rate(b)
  }

  lemma {:induction false} OfSideIs(es: seq<BookEntry>, side: Side)
    requires Sorted(es)
    ensures Sorted(OfSide(es, side))
    ensures forall x :: x in OfSide(es, side) <==> x in es && x.order.body.side == side
  {
    if es != [] {
      assert es == es[..|es| - 1] + [es[|es| - 1]];
      OfSideIs(es[..|es| - 1], side);
    }
  }

  lemma ReversedHolds(s: seq<BookEntry>)
    ensures forall x :: x in Reversed(s) <==> x in s
  {
    forall x | x in s ensures x in Reversed(s) {
      var i :| 0 <= i < |s| && s[i] == x;
      assert Reversed(s)[|s| - 1 - i] == x;
    }
  }

  /** A side lists exactly the book's entries of that side, best price first. */
  lemma BestFirst(es: seq<BookEntry>, side: Side)
    requires Sorted(es)
    ensures forall x :: x in SideView(es, side) <==> x in es && x.order.body.side == side
    ensures forall i, j :: 0 <= i < j < |SideView(es, side)| ==>
              NoWorse(side, SideView(es, side)[i], SideView(es, side)[j])
    ensures forall i, j :: 0 <= i < j < |SideView(es, side)| ==> SideView(es, side)[i] != SideView(es, side)[j]
  {
    OfSideIs(es, side);
    var s := OfSide(es, side);
    ReversedHolds(s);
    forall i, j | 0 <= i < j < |s| ensures s[i] != s[j] {
      LessIsTotal(s[i], s[j]);
    }
  }

  // ---------- the book as the source keeps it ----------

  class OrderBook {
    var entries: seq<BookEntry>

    ghost predicate Valid()
      reads this
    {
      Sorted(entries) && forall e <- entries :: e.order.body.amount > 0
    }

    constructor ()
      ensures Valid() && entries == []
    {
      entries := [];
    }

    /** `insert`: only an order that verifies enters, replacing nothing but itself. */
    method Insert(order: SignedOrder, now: nat, pofVerified: bool) returns (ok: bool)
      requires Valid()
      modifies this
      ensures Valid()
      ensures ok == Verifies(order, now)
      ensures var e := BookEntry(order, now, pofVerified);
              entries == if ok then Inserted(old(entries), e) else old(entries)
      ensures Hashes(entries) == Hashes(old(entries)) + if ok then {HashOf(order)} else {}
    {
      if !Verifies(order, now) {
        return false;
      }
      ghost var e := BookEntry(order, now, pofVerified);
      InsertedIs(entries, e);
      InsertedHashes(entries, e);
      entries := Inserted(entries, BookEntry(order, now, pofVerified));
      ok := true;
    }

    /** `sweep_expired`: drops exactly the expired orders and returns their hashes in book order. */
    method SweepExpired(now: nat) returns (dropped: seq<Hash>)
      requires Valid()
      modifies this
      ensures Valid()
      ensures entries == Live(old(entries), now)
      ensures dropped == Dropped(old(entries), now)
      ensures Hashes(old(entries)) == Hashes(entries) + (set h <- dropped)
      ensures Hashes(entries) !! (set h <- dropped)
    {
      dropped := [];
      var kept := [];
      for i := 0 to |entries|
        invariant entries == old(entries)
        invariant kept == Live(entries[..i], now)
        invariant dropped == Dropped(entries[..i], now)
      {
        assert entries[..i + 1][..i] == entries[..i];
        if entries[i].order.body.expiry > now {
          kept := kept + [entries[i]];
        } else {
          dropped := dropped + [HashOf(entries[i].order)];
        }
      }
      assert entries[..|entries|] == entries;
      SweepSplits(entries, now);
      LiveIs(entries, now);
      entries := kept;
    }

    /** `side`. */
    method ListSide(side: Side) returns (v: seq<BookEntry>)
      ensures v == SideView(entries, side)
    {
      v := [];
      for i := 0 to |entries|
        invariant v == OfSide(entries[..i], side)
      {
        assert entries[..i + 1][..i] == entries[..i];
        if entries[i].order.body.side == side {
          v := v + [entries[i]];
        }
      }
      assert entries[..|entries|] == entries;
      if side == SellXmr {
        v := Reversed(v);
      }
    }
  }

  lemma InsertedHashes(es: seq<BookEntry>, e: BookEntry)
    requires Sorted(es)
    ensures Hashes(Inserted(es, e)) == Hashes(es) + {Key(e)}
  {
    InsertedIs(es, e);
    forall h | h in Hashes(es) ensures h in Hashes(Inserted(es, e)) {
      var x :| x in es && Key(x) == h;
      assert h == Key(e) || x in Inserted(es, e);
      assert e in Inserted(es, e);
    }
    assert e in Inserted(es, e);
  }
}
