/** The first-come-first-served audit of swap-core/dex-core/src/matching.rs. */
module Fcfs {
  import opened Common
  import opened Orders

  /** A maker-signed arrival receipt; its signature is the caller's to check. */
  datatype Receipt = Receipt(orderHash: Bytes32, taker: Bytes32, seqNo: nat, maker: Bytes32)

  type Violation = (nat, nat)

  // ---------- the canonical order: sequence number, then order hash ----------

  predicate Leq(a: Receipt, b: Receipt) {
    a.seqNo < b.seqNo || (a.seqNo == b.seqNo && a.orderHash <= b.orderHash)
  }

  predicate Sorted(rs: seq<Receipt>) {
    forall i, j :: 0 <= i < j < |rs| ==> Leq(rs[i], rs[j])
  }

  function Placed(rs: seq<Receipt>, r: Receipt): seq<Receipt> {
    if rs == [] then [r]
    else if Leq(rs[|rs| - 1], r) then rs + [r]
    else Placed(rs[..|rs| - 1], r) + [rs[|rs| - 1]]
  }

  /** The stable sort the audit starts with. */
  function SortReceipts(rs: seq<Receipt>): seq<Receipt> {
    if rs == [] then [] else Placed(SortReceipts(rs[..|rs| - 1]), rs[|rs| - 1])
  }

  lemma {:induction false} PlacedBag(rs: seq<Receipt>, r: Receipt)
    ensures multiset(Placed(rs, r)) == multiset(rs) + multiset{r}
  {
    if rs != [] {
      var front, last := rs[..|rs| - 1], rs[|rs| - 1];
      assert rs == front + [last];
      if !Leq(last, r) {
        PlacedBag(front, r);
      }
    }
  }

  lemma {:induction false} PlacedIs(rs: seq<Receipt>, r: Receipt)
    requires Sorted(rs)
    ensures Sorted(Placed(rs, r))
  {
    if rs != [] {
      var front, last := rs[..|rs| - 1], rs[|rs| - 1];
      if !Leq(last, r) {
        PlacedIs(front, r);
        PlacedBag(front, r);
        forall x <- Placed(front, r) ensures Leq(x, last) {
          assert x in multiset(front) + multiset{r};
        }
      }
    }
  }

  lemma {:induction false} SortIs(rs: seq<Receipt>)
    ensures Sorted(SortReceipts(rs)) && multiset(SortReceipts(rs)) == multiset(rs)
  {
    if rs != [] {
      assert rs == rs[..|rs| - 1] + [rs[|rs| - 1]];
      SortIs(rs[..|rs| - 1]);
      PlacedIs(SortReceipts(rs[..|rs| - 1]), rs[|rs| - 1]);
      PlacedBag(SortReceipts(rs[..|rs| - 1]), rs[|rs| - 1]);
    }
  }

  // ---------- the verdict ----------

  function FirstCollision(rs: seq<Receipt>): Option<Violation> {
    if |rs| < 2 then None
    else if rs[0].seqNo == rs[1].seqNo then Some((rs[0].seqNo, rs[1].seqNo))
    else FirstCollision(rs[1..])
  }

  function Position(rs: seq<Receipt>, h: Bytes32): (pos: Option<nat>)
    ensures pos.Some? ==> pos.value < |rs| && rs[pos.value].orderHash == h
    ensures pos.Some? ==> forall i :: 0 <= i < pos.value ==> rs[i].orderHash != h
    ensures pos == None ==> forall i :: 0 <= i < |rs| ==> rs[i].orderHash != h
  {
    if rs == [] then None
    else if rs[0].orderHash == h then Some(0)
    else match Position(rs[1..], h)
         case None => None
         case Some(i) => Some(i + 1)
  }

  function Settle(pending: seq<Receipt>, settled: seq<Bytes32>): Option<Violation> {
    if settled == [] then None
    else
      match Position(pending, settled[0])
      case None => Some((0, if pending == [] then 0 else pending[0].seqNo))
      case Some(0) => Settle(pending[1..], settled[1..])
      case Some(i) => Some((pending[i].seqNo, pending[0].seqNo))
  }

  function Audit(receipts: seq<Receipt>, settled: seq<Bytes32>): Option<Violation> {
    var pending := SortReceipts(receipts);
    var collision := FirstCollision(pending);
    if collision.Some? then collision else Settle(pending, settled)
  }

  /** `audit_fcfs`. */
  method AuditFcfs(receipts: seq<Receipt>, settled: seq<Bytes32>) returns (verdict: Option<Violation>)
    ensures verdict == Audit(receipts, settled)
  {
    var pending := SortReceipts(receipts);
    ghost var sorted := pending;
    var k := 0;
    while k + 1 < |pending|
      invariant k <= |pending|
      invariant FirstCollision(pending) == FirstCollision(pending[k..])
    {
      assert pending[k..][1..] == pending[k + 1..];
      if pending[k].seqNo == pending[k + 1].seqNo {
        return Some((pending[k].seqNo, pending[k + 1].seqNo));
      }
      k := k + 1;
    }
    for i := 0 to |settled|
      invariant Settle(sorted, settled) == Settle(pending, settled[i..])
    {
      assert settled[i..][1..] == settled[i + 1..];
      var pos := Position(pending, settled[i]);
      if pos == None {
        return Some((0, if pending == [] then 0 else pending[0].seqNo));
      }
      if pos.value != 0 {
        return Some((pending[pos.value].seqNo, pending[0].seqNo));
      }
      pending := pending[1..];
    }
    verdict := None;
  }

  // ---------- exactness ----------

  predicate DistinctSeqs(rs: seq<Receipt>) {
    forall i, j :: 0 <= i < j < |rs| ==> rs[i].seqNo != rs[j].seqNo
  }

  function OrderHashes(rs: seq<Receipt>): seq<Bytes32> {
    seq(|rs|, i requires 0 <= i < |rs| => rs[i].orderHash)
  }

  lemma {:induction false} NoCollisionIs(rs: seq<Receipt>)
    requires Sorted(rs)
    ensures FirstCollision(rs) == None <==> DistinctSeqs(rs)
  {
    if |rs| >= 2 {
      NoCollisionIs(rs[1..]);
      if rs[0].seqNo != rs[1].seqNo && DistinctSeqs(rs[1..]) {
        forall i, j | 0 <= i < j < |rs| ensures rs[i].seqNo != rs[j].seqNo {
          if i > 0 {
            assert rs[1..][i - 1].seqNo != rs[1..][j - 1].seqNo;
          } else {
            assert Leq(rs[0], rs[1]) && (j == 1 || Leq(rs[1], rs[j]));
          }
        }
      }
    }
  }

  lemma {:induction false} SettledInOrderIs(pending: seq<Receipt>, settled: seq<Bytes32>)
    ensures Settle(pending, settled) == None <==> settled <= OrderHashes(pending)
  {
    if settled != [] && pending != [] && pending[0].orderHash == settled[0] {
      SettledInOrderIs(pending[1..], settled[1..]);
      assert OrderHashes(pending) == [pending[0].orderHash] + OrderHashes(pending[1..]);
      assert settled == [settled[0]] + settled[1..];
    }
  }

  lemma DistinctGrows(rs: seq<Receipt>, r: Receipt)
    ensures DistinctSeqs(rs + [r]) <==> DistinctSeqs(rs) && forall x <- rs :: x.seqNo != r.seqNo
  {
    var all := rs + [r];
    if DistinctSeqs(all) {
      assert DistinctSeqs(rs) by {
        forall i, j | 0 <= i < j < |rs| ensures rs[i].seqNo != rs[j].seqNo {
          assert all[i].seqNo != all[j].seqNo;
        }
      }
      forall x <- rs ensures x.seqNo != r.seqNo {
        var i :| 0 <= i < |rs| && rs[i] == x;
        assert all[i].seqNo != all[|rs|].seqNo;
      }
    }
  }

  lemma {:induction false} DistinctPlaced(rs: seq<Receipt>, r: Receipt)
    requires Sorted(rs)
    ensures DistinctSeqs(Placed(rs, r)) <==> DistinctSeqs(rs) && forall x <- rs :: x.seqNo != r.seqNo
  {
    if rs == [] || Leq(rs[|rs| - 1], r) {
      DistinctGrows(rs, r);
      assert rs == [] ==> rs + [r] == [r];
    } else {
      var front, last := rs[..|rs| - 1], rs[|rs| - 1];
      assert rs == front + [last];
      DistinctPlaced(front, r);
      DistinctGrows(front, last);
      DistinctGrows(Placed(front, r), last);
      PlacedBag(front, r);
      PlacedIs(front, r);
      assert forall x :: x in Placed(front, r) <==> x in multiset(front) + multiset{r};
    }
  }

  /** Sorting neither makes nor hides a collision. */
  lemma {:induction false} DistinctSorted(rs: seq<Receipt>)
    ensures DistinctSeqs(SortReceipts(rs)) <==> DistinctSeqs(rs)
  {
    if rs != [] {
      var front, last := rs[..|rs| - 1], rs[|rs| - 1];
      assert rs == front + [last];
      DistinctSorted(front);
      SortIs(front);
      DistinctPlaced(SortReceipts(front), last);
      DistinctGrows(front, last);
      assert forall x :: x in SortReceipts(front) <==> x in multiset(front);
    }
  }

  /** EXACT.  The audit acquits exactly a maker whose sequence numbers are all distinct and
      who settled a prefix of the order its own receipts put the takers in. */
  lemma AcquitsExactly(receipts: seq<Receipt>, settled: seq<Bytes32>)
    ensures Audit(receipts, settled) == None <==>
            DistinctSeqs(receipts) && settled <= OrderHashes(SortReceipts(receipts))
  {
    var pending := SortReceipts(receipts);
    SortIs(receipts);
    NoCollisionIs(pending);
    SettledInOrderIs(pending, settled);
    DistinctSorted(receipts);
  }

  // ---------- what a conviction says ----------

  /** A collision is reported as a number given twice, the lowest there is. */
  lemma {:induction false} CollisionIs(rs: seq<Receipt>)
    requires Sorted(rs) && FirstCollision(rs).Some?
    ensures var (a, b) := FirstCollision(rs).value;
            && a == b && (exists i, j :: 0 <= i < j < |rs| && rs[i].seqNo == rs[j].seqNo == a)
            && forall i, j :: 0 <= i < j < |rs| && rs[i].seqNo == rs[j].seqNo ==> a <= rs[i].seqNo
  {
    if rs[0].seqNo == rs[1].seqNo {
      assert forall i :: 0 < i < |rs| ==> Leq(rs[0], rs[i]);
    } else {
      var rest := rs[1..];
      CollisionIs(rest);
      var i, j :| 0 <= i < j < |rest| && rest[i].seqNo == rest[j].seqNo == FirstCollision(rs).value.0;
      assert rs[i + 1].seqNo == rs[j + 1].seqNo;
      forall l | 0 < l < |rs| ensures rs[0].seqNo < rs[l].seqNo {
        assert Leq(rs[0], rs[1]) && (l == 1 || Leq(rs[1], rs[l]));
      }
      forall k, l | 0 <= k < l < |rs| && rs[k].seqNo == rs[l].seqNo
        ensures FirstCollision(rs).value.0 <= rs[k].seqNo
      {
        assert rest[k - 1].seqNo == rest[l - 1].seqNo;
      }
    }
  }

  /** Position i is the first from j on with the order hash. */
  predicate FirstFrom(rs: seq<Receipt>, j: nat, i: nat, h: Bytes32) {
    j <= i < |rs| && rs[i].orderHash == h && forall k :: j <= k < i ==> rs[k].orderHash != h
  }

  /** A wrong settlement is reported at its first deviation j from the pending order: the number
      of the receipt settled out of turn, or 0 if it has none, and the lowest one skipped. */
  lemma {:induction false} DeviationIs(pending: seq<Receipt>, settled: seq<Bytes32>) returns (j: nat)
    requires Settle(pending, settled).Some?
    ensures j < |settled| && j <= |pending| && forall i :: 0 <= i < j ==> settled[i] == pending[i].orderHash
    ensures j < |pending| ==> settled[j] != pending[j].orderHash
    ensures var (out, skipped) := Settle(pending, settled).value;
            && skipped == (if j < |pending| then pending[j].seqNo else 0)
            && (forall i: nat :: FirstFrom(pending, j, i, settled[j]) ==> out == pending[i].seqNo)
            && ((forall i :: j <= i < |pending| ==> pending[i].orderHash != settled[j]) ==> out == 0)
  {
    if pending != [] && pending[0].orderHash == settled[0] {
      var k := DeviationIs(pending[1..], settled[1..]);
      j := k + 1;
      var rest := pending[1..];
      forall i | 0 <= i < |pending| ensures i > 0 ==> pending[i] == rest[i - 1] {
      }
      forall i | 0 <= i < j ensures settled[i] == pending[i].orderHash {
        assert i > 0 ==> settled[1..][i - 1] == rest[i - 1].orderHash;
      }
      forall i: nat | FirstFrom(pending, j, i, settled[j]) ensures FirstFrom(rest, k, i - 1, settled[1..][k]) {
        forall l | k <= l < i - 1 ensures rest[l].orderHash != settled[j] {
          assert rest[l] == pending[l + 1];
        }
      }
    } else {
      j := 0;
    }
  }

  /** CONVICTED OF WHAT.  A repeated number convicts whatever was settled, as the lowest one against
      itself; otherwise it is the first settlement out of turn. */
  lemma ConvictsOf(receipts: seq<Receipt>, settled: seq<Bytes32>) returns (j: nat)
    requires Audit(receipts, settled).Some?
    ensures var (pending, v) := (SortReceipts(receipts), Audit(receipts, settled).value);
            if !DistinctSeqs(receipts) then
              v.0 == v.1 && exists i, k :: 0 <= i < k < |pending| && pending[i].seqNo == pending[k].seqNo == v.0
            else
              && j < |settled| && j <= |pending| && (forall i :: 0 <= i < j ==> settled[i] == pending[i].orderHash)
              && (j < |pending| ==> settled[j] != pending[j].orderHash)
              && v.1 == (if j < |pending| then pending[j].seqNo else 0)
              && (forall i: nat :: FirstFrom(pending, j, i, settled[j]) ==> v.0 == pending[i].seqNo)
  {
    var pending := SortReceipts(receipts);
    SortIs(receipts);
    NoCollisionIs(pending);
    DistinctSorted(receipts);
    if DistinctSeqs(receipts) {
      j := DeviationIs(pending, settled);
    } else {
      j := 0;
      CollisionIs(pending);
    }
  }

  // ---------- input-order independence ----------

  type Key = (nat, Bytes32)

  function Keys(rs: seq<Receipt>): seq<Key> {
    seq(|rs|, i requires 0 <= i < |rs| => (rs[i].seqNo, rs[i].orderHash))
  }

  lemma {:induction false} SameKeysSameVerdict(p: seq<Receipt>, q: seq<Receipt>, settled: seq<Bytes32>)
    requires Keys(p) == Keys(q)
    ensures FirstCollision(p) == FirstCollision(q)
    ensures Settle(p, settled) == Settle(q, settled)
    decreases |p|
  {
    assert |p| == |Keys(p)| == |q|;
    forall i | 0 <= i < |p| ensures p[i].seqNo == q[i].seqNo && p[i].orderHash == q[i].orderHash {
      assert Keys(p)[i] == Keys(q)[i];
    }
    if p != [] {
      assert Keys(p[1..]) == Keys(p)[1..] == Keys(q)[1..] == Keys(q[1..]);
      SameKeysSameVerdict(p[1..], q[1..], if settled == [] then [] else settled[1..]);
    }
  }

  predicate KeyLeq(a: Key, b: Key) {
    a.0 < b.0 || (a.0 == b.0 && a.1 <= b.1)
  }

  predicate KeysSorted(ks: seq<Key>) {
    forall i, j :: 0 <= i < j < |ks| ==> KeyLeq(ks[i], ks[j])
  }

  lemma Without<T>(s: seq<T>, j: nat)
    requires j < |s|
    ensures multiset(s) == multiset(s[..j] + s[j + 1..]) + multiset{s[j]}
  {
    assert s == s[..j] + [s[j]] + s[j + 1..];
  }

  lemma HeadAndTail<T>(s: seq<T>)
    requires s != []
    ensures multiset(s) == multiset(s[1..]) + multiset{s[0]}
  {
    assert s == [s[0]] + s[1..];
  }

  lemma Cancel<T>(a: multiset<T>, b: multiset<T>, x: T)
    requires a + multiset{x} == b + multiset{x}
    ensures a == b
  {
    forall y ensures a[y] == b[y] {
      assert (a + multiset{x})[y] == (b + multiset{x})[y];
    }
  }

  /** The keys of a list, as a bag, depend only on the list as a bag. */
  lemma {:induction false} KeysOfBag(a: seq<Receipt>, b: seq<Receipt>)
    requires multiset(a) == multiset(b)
    ensures multiset(Keys(a)) == multiset(Keys(b))
  {
    if a == [] {
      assert |multiset(b)| == 0;
      assert b == [];
    } else {
      var n := |a| - 1;
      assert a == a[..n] + [a[n]];
      assert a[n] in multiset(b);
      var j :| 0 <= j < |b| && b[j] == a[n];
      var rest := b[..j] + b[j + 1..];
      Without(b, j);
      Without(a, n);
      assert a[..n] + a[n + 1..] == a[..n];
      Cancel(multiset(a[..n]), multiset(rest), a[n]);
      KeysOfBag(a[..n], rest);
      var key := (a[n].seqNo, a[n].orderHash);
      assert Keys(a) == Keys(a[..n]) + [key];
      Without(Keys(b), j);
      assert Keys(rest) == Keys(b)[..j] + Keys(b)[j + 1..];
    }
  }

  lemma LeastFirst(p: seq<Key>, q: seq<Key>, i: nat)
    requires KeysSorted(p) && KeysSorted(q) && p != [] && i < |q| && q[i] == p[0]
    ensures KeyLeq(q[0], p[0])
  {
  }

  lemma SameFirst(p: seq<Key>, q: seq<Key>)
    requires KeysSorted(p) && KeysSorted(q) && multiset(p) == multiset(q) && p != []
    ensures q != [] && p[0] == q[0]
  {
    assert p[0] in multiset(q);
    var i :| 0 <= i < |q| && q[i] == p[0];
    LeastFirst(p, q, i);
    assert q[0] in multiset(p);
    var j :| 0 <= j < |p| && p[j] == q[0];
    LeastFirst(q, p, j);
  }

  lemma TailsAgree(p: seq<Key>, q: seq<Key>)
    requires multiset(p) == multiset(q) && p != [] && q != [] && p[0] == q[0]
    ensures multiset(p[1..]) == multiset(q[1..])
  {
    HeadAndTail(p);
    HeadAndTail(q);
    Cancel(multiset(p[1..]), multiset(q[1..]), p[0]);
  }

  /** A bag of keys has one sorted listing. */
  lemma {:induction false} SortedKeysAgree(p: seq<Key>, q: seq<Key>)
    requires KeysSorted(p) && KeysSorted(q) && multiset(p) == multiset(q)
    ensures p == q
  {
    assert |multiset(p)| == |p| && |multiset(q)| == |q|;
    if p != [] {
      SameFirst(p, q);
      TailsAgree(p, q);
      SortedKeysAgree(p[1..], q[1..]);
    }
  }

  /** INPUT-ORDER INDEPENDENCE.  The full verdict is the same for every order in which the
      receipts are handed in. */
  lemma VerdictIgnoresInputOrder(a: seq<Receipt>, b: seq<Receipt>, settled: seq<Bytes32>)
    requires multiset(a) == multiset(b)
    ensures Audit(a, settled) == Audit(b, settled)
  {
    SortIs(a);
    SortIs(b);
    KeysOfBag(SortReceipts(a), SortReceipts(b));
    SortedKeysAgree(Keys(SortReceipts(a)), Keys(SortReceipts(b)));
    SameKeysSameVerdict(SortReceipts(a), SortReceipts(b), settled);
  }
}
