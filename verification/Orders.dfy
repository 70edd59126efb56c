/** Signed orders: swap-core/dex-core/src/order.rs, with hashes and signatures as free terms. */
module Orders {
  type Bytes32 = nat

  datatype Side = SellXno | SellXmr

  datatype OrderBody = OrderBody(
    maker: Bytes32, side: Side, amount: nat, ratePico: nat, expiry: nat, nonce: nat, pofHash: Bytes32)

  /** The hash of an order is the term over its body: equal hashes, equal orders. */
  datatype Hash = Digest(body: OrderBody)

  datatype Signature = SignedBy(key: Bytes32, body: OrderBody) | Forged(bytes: nat)

  datatype SignedOrder = SignedOrder(body: OrderBody, signature: Signature)

  const MAX_ORDER_TTL_SECS := 7 * 24 * 60 * 60

  function HashOf(order: SignedOrder): Hash {
    Digest(order.body)
  }

  predicate Verifies(order: SignedOrder, now: nat) {
    && order.body.amount > 0
    && order.body.ratePico > 0
    && order.body.expiry > now
    && order.body.expiry - now <= MAX_ORDER_TTL_SECS
    && order.signature == SignedBy(order.body.maker, order.body)
  }

  // ---------- the book key: rate, then the order hash ----------

  function SideRank(side: Side): nat { if side == SellXno then 0 else 1 }

  function Fields(h: Hash): (nat, nat, nat, nat, nat, nat, nat) {
    var b := h.body;
    (b.maker, SideRank(b.side), b.amount, b.ratePico, b.expiry, b.nonce, b.pofHash)
  }

  /** A strict total order on hashes, standing for the byte order of the digests. */
  predicate HashLess(a: Hash, b: Hash) {
    var (x, y) := (Fields(a), Fields(b));
    x.0 < y.0 || (x.0 == y.0 && (
    x.1 < y.1 || (x.1 == y.1 && (
    x.2 < y.2 || (x.2 == y.2 && (
    x.3 < y.3 || (x.3 == y.3 && (
    x.4 < y.4 || (x.4 == y.4 && (
    x.5 < y.5 || (x.5 == y.5 && x.6 < y.6)))))))))))
  }

  lemma HashOrderIsTotal(a: Hash, b: Hash)
    ensures a == b || HashLess(a, b) || HashLess(b, a)
    ensures !(HashLess(a, b) && HashLess(b, a))
    ensures !HashLess(a, a)
  {
  }

  lemma HashOrderIsTransitive(a: Hash, b: Hash, c: Hash)
    requires HashLess(a, b) && HashLess(b, c)
    ensures HashLess(a, c)
  {
  }
}
