/** The Nano ledger as a message bus: web/ledger_relay.js. */
module LedgerBus {
  import opened Common

  newtype Byte = b: int | 0 <= b < 256

  // ---------- headers: magic(8) | seq(16) | idx(12) | total(12) | blobLen(16) ----------

  const MAGIC := 0x5A
  const P16 := 0x1_0000
  const P28 := 0x1000_0000
  const P40 := 0x100_0000_0000
  const P56 := 0x100_0000_0000_0000

  datatype Header = Header(seqNo: nat, idx: nat, total: nat, blobLen: nat)

  predicate Fits(h: Header) {
    h.seqNo < 65536 && h.idx < 4096 && h.total < 4096 && h.blobLen < 65536
  }

  /** `packHeader`: each field is cut to its width; the shifted fields do not overlap, so
      or-ing them together adds them. */
  function Pack(h: Header): nat {
    MAGIC * P56 + (h.seqNo % 65536) * P40 + (h.idx % 4096) * P28 + (h.total % 4096) * P16 + h.blobLen % 65536
  }

  /** `unpackHeader`. */
  function Unpack(v: nat): Option<Header> {
    if v / P56 != MAGIC then None
    else Some(Header((v / P40) % 65536, (v / P28) % 4096, (v / P16) % 4096, v % 65536))
  }

  lemma Nested(v: nat, w: nat, x: nat, y: nat)
    requires w == v / P16 && x == w / 4096 && y == x / 4096
    ensures v / P28 == x && v / P40 == y && v / P56 == y / 65536
  {
  }

  /** The word of a header, field on field. */
  lemma PackNests(h: Header)
    requires Fits(h)
    ensures Pack(h) == (((MAGIC * 65536 + h.seqNo) * 4096 + h.idx) * 4096 + h.total) * 65536 + h.blobLen
  {
  }

  lemma PackedFields(h: Header)
    requires Fits(h)
    ensures var v := Pack(h);
            && v / P56 == MAGIC
            && v / P40 == MAGIC * 65536 + h.seqNo
            && v / P28 == (MAGIC * 65536 + h.seqNo) * 4096 + h.idx
            && v / P16 == ((MAGIC * 65536 + h.seqNo) * 4096 + h.idx) * 4096 + h.total
            && v % 65536 == h.blobLen
  {
    var y := MAGIC * 65536 + h.seqNo;
    var x := y * 4096 + h.idx;
    var w := x * 4096 + h.total;
    PackNests(h);
    LowField(w, 65536, h.blobLen);
    LowField(x, 4096, h.total);
    LowField(y, 4096, h.idx);
    LowField(MAGIC, 65536, h.seqNo);
    Nested(Pack(h), w, x, y);
  }

  lemma LowField(high: nat, width: nat, low: nat)
    requires width in {4096, 65536} && low < width
    ensures (high * width + low) % width == low && (high * width + low) / width == high
  {
  }

  /** BIJECTION, one way: a header that fits its fields survives the round trip... */
  lemma UnpackPack(h: Header)
    requires Fits(h)
    ensures Unpack(Pack(h)) == Some(h)
  {
    PackedFields(h);
    LowField(MAGIC, 65536, h.seqNo);
    LowField(MAGIC * 65536 + h.seqNo, 4096, h.idx);
    LowField((MAGIC * 65536 + h.seqNo) * 4096 + h.idx, 4096, h.total);
  }

  /** ...and the other: a word reads as a header exactly when its top byte is the magic, and
      then it is that header's word and no other's. */
  lemma PackUnpack(v: nat)
    ensures Unpack(v).Some? <==> MAGIC * P56 <= v < (MAGIC + 1) * P56
    ensures Unpack(v).Some? ==> Fits(Unpack(v).value) && Pack(Unpack(v).value) == v
  {
    if Unpack(v).Some? {
      assert v == (v / P16) * P16 + v % 65536;
      assert v / P16 == (v / P28) * 4096 + (v / P16) % 4096;
      assert v / P28 == (v / P40) * 4096 + (v / P28) % 4096;
      assert v / P40 == (v / P56) * 65536 + (v / P40) % 65536;
    }
  }

  // ---------- chunks ----------

  const CHUNK := 32

  function ChunkCount(blob: seq<Byte>): nat {
    var n := (|blob| + CHUNK - 1) / CHUNK;
    if n == 0 then 1 else n
  }

  /** A blob's byte, or the zero padding after its end. */
  function ByteAt(blob: seq<Byte>, i: nat): Byte {
    if i < |blob| then blob[i] else 0
  }

  function ChunkOf(blob: seq<Byte>, k: nat): seq<Byte> {
    seq(CHUNK, i requires 0 <= i < CHUNK => ByteAt(blob, k * CHUNK + i))
  }

  /** A send to the mailbox: the header rides in the amount, the chunk in the representative. */
  datatype Send = Send(amount: nat, chunk: seq<Byte>)

  function ChunkSend(seqNo: nat, blob: seq<Byte>, k: nat): Send {
    Send(Pack(Header(seqNo, k, ChunkCount(blob), |blob|)), ChunkOf(blob, k))
  }

  // ---------- post ----------

  /** What the network does with one broadcast.  A rejection names the refreshed balance; a
      node may reject a block that reached the chain all the same. */
  datatype Attempt = Landed | RejectedStale(balance: nat) | LandedYetRejected(balance: nat) | Failed

  datatype PostError = BalanceTooLow | BroadcastFailed

  predicate IsRun(sends: seq<Send>, seqNo: nat, blob: seq<Byte>, upTo: nat) {
    && (forall s <- sends :: exists k :: 0 <= k < ChunkCount(blob) && s == ChunkSend(seqNo, blob, k))
    && (forall k :: 0 <= k < upTo ==> ChunkSend(seqNo, blob, k) in sends)
  }

  /** A post under way: the chunk it is at, its refreshes, its balance and its sends so far. */
  datatype Posting = Posting(idx: nat, refreshes: nat, bal: nat, sends: seq<Send>)

  predicate Rejects(a: Attempt) { a.RejectedStale? || a.LandedYetRejected? }

  /** The post can broadcast its next chunk. */
  predicate CanSend(seqNo: nat, blob: seq<Byte>, p: Posting) {
    p.idx < ChunkCount(blob) && p.bal >= ChunkSend(seqNo, blob, p.idx).amount
  }

  /** An answer it goes on after: the chunk landed, or one of three rejections. */
  predicate GoesOn(p: Posting, a: Attempt) {
    a.Landed? || (Rejects(a) && p.refreshes < 3)
  }

  function Answered(seqNo: nat, blob: seq<Byte>, p: Posting, a: Attempt): Posting
    requires CanSend(seqNo, blob, p) && GoesOn(p, a)
  {
    var s := ChunkSend(seqNo, blob, p.idx);
    match a
    case Landed => Posting(p.idx + 1, p.refreshes, p.bal - s.amount, p.sends + [s])
    case RejectedStale(b) => Posting(p.idx, p.refreshes + 1, b, p.sends)
    case LandedYetRejected(b) => Posting(p.idx, p.refreshes + 1, b, p.sends + [s])
    case Failed => p
  }

  /** Where a post is after the first n answers; None once it has stopped before. */
  function Under(seqNo: nat, blob: seq<Byte>, balance: nat, network: seq<Attempt>, n: nat): Option<Posting>
    requires n <= |network|
  {
    if n == 0 then Some(Posting(0, 0, balance, []))
    else
      var before := Under(seqNo, blob, balance, network, n - 1);
      if before.Some? && CanSend(seqNo, blob, before.value) && GoesOn(before.value, network[n - 1]) then
        Some(Answered(seqNo, blob, before.value, network[n - 1]))
      else None
  }

  lemma {:induction false} UnderIsRun(seqNo: nat, blob: seq<Byte>, balance: nat, network: seq<Attempt>, n: nat)
    requires n <= |network| && Under(seqNo, blob, balance, network, n).Some?
    ensures var p := Under(seqNo, blob, balance, network, n).value;
            && IsRun(p.sends, seqNo, blob, p.idx) && |p.sends| <= p.idx + p.refreshes
            && p.refreshes <= 3 && p.idx <= ChunkCount(blob)
  {
    if n > 0 {
      UnderIsRun(seqNo, blob, balance, network, n - 1);
      var p := Under(seqNo, blob, balance, network, n - 1).value;
      assert IsRun(p.sends + [ChunkSend(seqNo, blob, p.idx)], seqNo, blob, p.idx + 1);
    }
  }

  /** How a post that got to `p` after `used` answers ends there. */
  predicate Ends(seqNo: nat, blob: seq<Byte>, p: Posting, next: Option<Attempt>,
                 r: Result<bool, PostError>, sends: seq<Send>)
  {
    match r
    case Ok(_) => p.idx == ChunkCount(blob) && sends == p.sends
    case Err(BalanceTooLow) =>
      p.idx < ChunkCount(blob) && p.bal < ChunkSend(seqNo, blob, p.idx).amount && sends == p.sends
    case Err(BroadcastFailed) =>
      && CanSend(seqNo, blob, p) && (next.Some? ==> !GoesOn(p, next.value))
      && sends == p.sends + if next.Some? && next.value.LandedYetRejected? then [ChunkSend(seqNo, blob, p.idx)] else []
  }

  /** The loop of `post`, chunk by chunk. */
  method SendChunks(seqNo: nat, blob: seq<Byte>, balance: nat, network: seq<Attempt>)
    returns (r: Result<bool, PostError>, sends: seq<Send>, ghost used: nat)
    ensures used <= |network| && Under(seqNo, blob, balance, network, used).Some?
    ensures Ends(seqNo, blob, Under(seqNo, blob, balance, network, used).value,
                 if used < |network| then Some(network[used]) else None, r, sends)
  {
    var total := ChunkCount(blob);
    var bal: nat := balance;
    var idx, refreshes, turn := 0, 0, 0;
    sends, used := [], 0;
    while idx < total
      invariant 0 <= idx <= total && 0 <= refreshes <= 3 && turn <= |network| && used == turn
      invariant Under(seqNo, blob, balance, network, turn) == Some(Posting(idx, refreshes, bal, sends))
      decreases |network| - turn
    {
      var s := ChunkSend(seqNo, blob, idx);
      if bal < s.amount { return Err(BalanceTooLow), sends, used; }
      var answer := if turn < |network| then network[turn] else Failed;
      match answer {
        case Landed =>
          sends := sends + [s];
          bal, idx := bal - s.amount, idx + 1;
        case RejectedStale(b) =>
          if refreshes == 3 { return Err(BroadcastFailed), sends, used; }
          refreshes, bal := refreshes + 1, b;
        case LandedYetRejected(b) =>
          sends := sends + [s];
          if refreshes == 3 { return Err(BroadcastFailed), sends, used; }
          refreshes, bal := refreshes + 1, b;
        case Failed =>
          return Err(BroadcastFailed), sends, used;
      }
      turn, used := turn + 1, used + 1;
    }
    r := Ok(true);
  }

  /** What the first n chunks of a blob take. */
  function Price(seqNo: nat, blob: seq<Byte>, n: nat): nat {
    if n == 0 then 0 else Price(seqNo, blob, n - 1) + ChunkSend(seqNo, blob, n - 1).amount
  }

  lemma {:induction false} PriceGrows(seqNo: nat, blob: seq<Byte>, m: nat, n: nat)
    requires m <= n
    ensures Price(seqNo, blob, m) <= Price(seqNo, blob, n)
  {
    if m < n {
      PriceGrows(seqNo, blob, m, n - 1);
    }
  }

  lemma {:induction false} LandsInTurn(seqNo: nat, blob: seq<Byte>, balance: nat, network: seq<Attempt>, n: nat)
    requires n <= ChunkCount(blob) <= |network| && Price(seqNo, blob, ChunkCount(blob)) <= balance
    requires forall i :: 0 <= i < ChunkCount(blob) ==> network[i] == Landed
    ensures var p := Under(seqNo, blob, balance, network, n);
            p.Some? && p.value.idx == n && p.value.bal == balance - Price(seqNo, blob, n) && |p.value.sends| == n
  {
    if n > 0 {
      LandsInTurn(seqNo, blob, balance, network, n - 1);
      PriceGrows(seqNo, blob, n, ChunkCount(blob));
    }
  }

  lemma {:induction false} StopsAt(seqNo: nat, blob: seq<Byte>, balance: nat, network: seq<Attempt>, n: nat, m: nat)
    requires n < m <= |network| && Under(seqNo, blob, balance, network, n).Some?
    requires !CanSend(seqNo, blob, Under(seqNo, blob, balance, network, n).value)
    ensures Under(seqNo, blob, balance, network, m) == None
  {
    if m > n + 1 {
      StopsAt(seqNo, blob, balance, network, n, m - 1);
    }
  }

  /** The balance pays for every chunk, and the network takes them all. */
  predicate AllLand(seqNo: nat, blob: seq<Byte>, balance: nat, network: seq<Attempt>) {
    && Price(seqNo, blob, ChunkCount(blob)) <= balance && ChunkCount(blob) <= |network|
    && forall i :: 0 <= i < ChunkCount(blob) ==> network[i] == Landed
  }

  /** Then a post can stop nowhere before its last chunk, nor after it. */
  lemma AllLanded(seqNo: nat, blob: seq<Byte>, balance: nat, network: seq<Attempt>, used: nat)
    requires AllLand(seqNo, blob, balance, network)
    requires used <= |network| && Under(seqNo, blob, balance, network, used).Some?
    ensures var (n, p) := (ChunkCount(blob), Under(seqNo, blob, balance, network, used).value);
            && used <= n && p.idx == used == |p.sends|
            && (used < n ==> CanSend(seqNo, blob, p) && network[used] == Landed)
  {
    var n := ChunkCount(blob);
    if used <= n {
      LandsInTurn(seqNo, blob, balance, network, used);
      PriceGrows(seqNo, blob, if used < n then used + 1 else used, n);
    } else {
      LandsInTurn(seqNo, blob, balance, network, n);
      StopsAt(seqNo, blob, balance, network, n, used);
    }
  }

  /** `post`: whatever the network answers, everything it puts on the chain is a chunk of this
      blob; when it reports success every chunk is there.  At most three are there twice.  It gives
      up only over a balance too low for the chunk at hand, a failed broadcast, a fourth rejection,
      or no answer any more; so with a balance that pays
      for every chunk and a network that takes them it succeeds, each chunk sent once. */
  method Post(seqNo: nat, blob: seq<Byte>, balance: nat, network: seq<Attempt>)
    returns (r: Result<bool, PostError>, sends: seq<Send>, ghost used: nat)
    ensures IsRun(sends, seqNo, blob, if r.Ok? then ChunkCount(blob) else 0)
    ensures |sends| <= ChunkCount(blob) + 3
    ensures used <= |network| && Under(seqNo, blob, balance, network, used).Some?
    ensures Ends(seqNo, blob, Under(seqNo, blob, balance, network, used).value,
                 if used < |network| then Some(network[used]) else None, r, sends)
    ensures AllLand(seqNo, blob, balance, network) ==> r.Ok? && |sends| == ChunkCount(blob)
  {
    r, sends, used := SendChunks(seqNo, blob, balance, network);
    UnderIsRun(seqNo, blob, balance, network, used);
    if AllLand(seqNo, blob, balance, network) {
      AllLanded(seqNo, blob, balance, network, used);
    }
  }

  // ---------- fetch ----------

  /** A receivable of the mailbox account, with the representative its block was read to
      carry; None when no node returned the block. */
  datatype Receivable = Receivable(amount: nat, representative: Option<seq<Byte>>)

  datatype Fetched = Pending | Blob(bytes: seq<Byte>) | RangeError

  /** A receivable whose amount reads as a header of the wanted message. */
  datatype Arrived = Arrived(header: Header, representative: Option<seq<Byte>>)

  function Want(entries: seq<Receivable>, seqNo: nat): seq<Arrived> {
    if entries == [] then []
    else
      var e := entries[|entries| - 1];
      var h := Unpack(e.amount);
      Want(entries[..|entries| - 1], seqNo)
      + if h.Some? && h.value.seqNo == seqNo then [Arrived(h.value, e.representative)] else []
  }

  predicate Readable(a: Arrived) {
    a.representative.Some? && |a.representative.value| == CHUNK
  }

  function Overlay(out: seq<Byte>, at: nat, chunk: seq<Byte>): seq<Byte>
    requires at + |chunk| <= |out|
  {
    out[..at] + chunk + out[at + |chunk|..]
  }

  datatype Buffer = Buffer(out: seq<Byte>, have: nat)

  /** The buffer after copying in the readable chunks in turn; None once one falls outside. */
  function Filled(want: seq<Arrived>, size: nat): (b: Option<Buffer>)
    ensures b.Some? ==> |b.value.out| == size
  {
    if want == [] then Some(Buffer(seq(size, _ => 0), 0))
    else
      var k := |want| - 1;
      var before := Filled(want[..k], size);
      if before == None || !Readable(want[k]) then before
      else
        var at := want[k].header.idx * CHUNK;
        if at + CHUNK > size then None
        else Some(Buffer(Overlay(before.value.out, at, want[k].representative.value), before.value.have + 1))
  }

  function FetchedFrom(entries: seq<Receivable>, seqNo: nat): Fetched {
    var want := Want(entries, seqNo);
    if want == [] then Pending
    else
      var h := want[0].header;
      if |want| < h.total then Pending
      else
        match Filled(want, h.total * CHUNK)
        case None => RangeError
        case Some(b) =>
          if b.have < h.total then Pending
          else Blob(if h.blobLen < |b.out| then b.out[..h.blobLen] else b.out)
  }

  method CopyChunk(out: array<Byte>, at: nat, chunk: seq<Byte>)
    requires at + |chunk| <= out.Length
    modifies out
    ensures out[..] == Overlay(old(out[..]), at, chunk)
  {
    for j := 0 to |chunk|
      invariant forall i :: 0 <= i < out.Length ==>
                  out[i] == if at <= i < at + j then chunk[i - at] else old(out[i])
    {
      out[at + j] := chunk[j];
    }
  }

  const LIST_LIMIT := 500

  /** A node lists at most this many of the mailbox's receivables, in an order of its own. */
  function Listed(receivables: seq<Receivable>): (entries: seq<Receivable>)
    ensures |entries| <= LIST_LIMIT && entries <= receivables
  {
    if |receivables| <= LIST_LIMIT then receivables else receivables[..LIST_LIMIT]
  }

  method CollectWant(entries: seq<Receivable>, seqNo: nat) returns (want: seq<Arrived>)
    ensures want == Want(entries, seqNo)
  {
    want := [];
    for i := 0 to |entries|
      invariant want == Want(entries[..i], seqNo)
    {
      assert entries[..i + 1][..i] == entries[..i];
      var h := Unpack(entries[i].amount);
      if h.Some? && h.value.seqNo == seqNo {
        want := want + [Arrived(h.value, entries[i].representative)];
      }
    }
    assert entries[..|entries|] == entries;
  }

  /** Copies the readable chunks into a new buffer, in place; None is the range error. */
  method FillBuffer(want: seq<Arrived>, size: nat) returns (b: Option<Buffer>)
    ensures b == Filled(want, size)
  {
    var out := new Byte[size](_ => 0);
    var have := 0;
    assert out[..] == seq(size, _ => 0) && want[..0] == [];
    for k := 0 to |want|
      invariant out.Length == size
      invariant Filled(want[..k], size) == Some(Buffer(out[..], have))
    {
      assert want[..k + 1][..k] == want[..k];
      if want[k].representative.Some? && |want[k].representative.value| == CHUNK {
        var at := want[k].header.idx * CHUNK;
        if at + CHUNK > size {
          FilledFails(want, size, k + 1);
          return None;
        }
        CopyChunk(out, at, want[k].representative.value);
        have := have + 1;
      }
    }
    assert want[..|want|] == want;
    b := Some(Buffer(out[..], have));
  }

  /** `fetch`. */
  method Fetch(receivables: seq<Receivable>, seqNo: nat) returns (r: Fetched)
    ensures r == FetchedFrom(Listed(receivables), seqNo)
  {
    var want := CollectWant(Listed(receivables), seqNo);
    if |want| == 0 { return Pending; }
    var total, blobLen := want[0].header.total, want[0].header.blobLen;
    if |want| < total { return Pending; }
    var b := FillBuffer(want, total * CHUNK);
    if b == None { return RangeError; }
    if b.value.have < total { return Pending; }
    r := Blob(if blobLen < |b.value.out| then b.value.out[..blobLen] else b.value.out);
  }

  /** A chunk outside the buffer ends the fetch, whatever follows. */
  lemma {:induction false} FilledFails(want: seq<Arrived>, size: nat, k: nat)
    requires k <= |want|
    ensures Filled(want[..k], size) == None ==> Filled(want, size) == None
    decreases |want| - k
  {
    if k == |want| {
      assert want[..k] == want;
    } else {
      assert want[..k + 1][..k] == want[..k];
      FilledFails(want, size, k + 1);
    }
  }

  // ---------- round trip ----------

  /** Whatever else the mailbox holds, its sends under this sequence number are chunks of the
      blob, in any order and any multiplicity, each read or not. */
  predicate OnlyFrom(want: seq<Arrived>, seqNo: nat, blob: seq<Byte>) {
    forall i :: 0 <= i < |want| ==>
      && want[i].header.idx < ChunkCount(blob)
      && want[i].header == Header(seqNo, want[i].header.idx, ChunkCount(blob), |blob|)
      && (want[i].representative.Some? ==> want[i].representative.value == ChunkOf(blob, want[i].header.idx))
  }

  predicate Present(want: seq<Arrived>, k: nat) {
    exists i :: 0 <= i < |want| && want[i].header.idx == k && Readable(want[i])
  }

  predicate AllPresent(want: seq<Arrived>, blob: seq<Byte>) {
    forall k :: 0 <= k < ChunkCount(blob) ==> Present(want, k)
  }

  predicate DistinctIndices(want: seq<Arrived>) {
    forall i, j :: 0 <= i < j < |want| ==> want[i].header.idx != want[j].header.idx
  }

  predicate ZeroChunk(blob: seq<Byte>, k: nat) {
    forall i :: k * CHUNK <= i < k * CHUNK + CHUNK && i < |blob| ==> blob[i] == 0
  }

  function ReadCount(want: seq<Arrived>): nat {
    if want == [] then 0 else ReadCount(want[..|want| - 1]) + if Readable(want[|want| - 1]) then 1 else 0
  }

  /** Copying chunks of one blob: the buffer holds the blob where a chunk was read, zeros elsewhere. */
  lemma {:induction false} FilledWithBlob(want: seq<Arrived>, seqNo: nat, blob: seq<Byte>)
    requires OnlyFrom(want, seqNo, blob)
    ensures var b := Filled(want, ChunkCount(blob) * CHUNK);
            && b.Some? && b.value.have == ReadCount(want)
            && forall i :: 0 <= i < ChunkCount(blob) * CHUNK ==>
                 b.value.out[i] == if Present(want, i / CHUNK) then ByteAt(blob, i) else 0
  {
    if want != [] {
      var n := |want| - 1;
      var front := want[..n];
      FilledWithBlob(front, seqNo, blob);
      forall k: nat {
        PresentGrows(want, k);
      }
    }
  }

  function ReadIndices(want: seq<Arrived>): set<nat> {
    if want == [] then {}
    else
      var last := want[|want| - 1];
      ReadIndices(want[..|want| - 1]) + if Readable(last) then {last.header.idx} else {}
  }

  lemma PresentGrows(want: seq<Arrived>, k: nat)
    requires want != []
    ensures var n := |want| - 1;
            Present(want, k) <==> Present(want[..n], k) || (k == want[n].header.idx && Readable(want[n]))
  {
    var n := |want| - 1;
    var front := want[..n];
    if Present(front, k) {
      var i :| 0 <= i < |front| && front[i].header.idx == k && Readable(front[i]);
      assert want[i] == front[i];
    }
    if Present(want, k) {
      var i :| 0 <= i < |want| && want[i].header.idx == k && Readable(want[i]);
      assert i < n ==> front[i] == want[i];
    }
  }

  lemma {:induction false} ReadIndicesArePresent(want: seq<Arrived>, k: nat)
    ensures k in ReadIndices(want) <==> Present(want, k)
  {
    if want != [] {
      ReadIndicesArePresent(want[..|want| - 1], k);
      PresentGrows(want, k);
    }
  }

  function Below(n: nat): (s: set<nat>)
    ensures |s| == n
    ensures forall k :: k in s <==> 0 <= k < n
  {
    if n == 0 then {} else Below(n - 1) + {n - 1}
  }

  /** As many different chunks at most as chunks read, and exactly as many without repeats. */
  lemma {:induction false} CountIndices(want: seq<Arrived>)
    ensures |ReadIndices(want)| <= ReadCount(want) <= |want|
    ensures DistinctIndices(want) ==> |ReadIndices(want)| == ReadCount(want)
  {
    if want != [] {
      var n := |want| - 1;
      var front := want[..n];
      CountIndices(front);
      ReadIndicesArePresent(front, want[n].header.idx);
    }
  }

  /** All chunks present is as many different chunks as the blob has. */
  lemma PresentIsCounted(want: seq<Arrived>, seqNo: nat, blob: seq<Byte>)
    requires OnlyFrom(want, seqNo, blob)
    ensures |ReadIndices(want)| <= ChunkCount(blob)
    ensures AllPresent(want, blob) <==> |ReadIndices(want)| == ChunkCount(blob)
  {
    var all := Below(ChunkCount(blob));
    var read := ReadIndices(want);
    forall k: nat {
      ReadIndicesArePresent(want, k);
    }
    assert read <= all;
    Subset(read, all);
    assert read == all <==> AllPresent(want, blob);
  }

  lemma {:induction false} Subset(a: set<nat>, b: set<nat>)
    requires a <= b
    ensures |a| <= |b| && (|a| == |b| ==> a == b)
  {
    assert b == a + (b - a) && a !! (b - a);
    assert |b| == |a| + |b - a|;
  }

  /** What a fetch returns once enough chunks were read, and when exactly that is the blob. */
  lemma FetchedWhenCounted(want: seq<Arrived>, seqNo: nat, blob: seq<Byte>)
    requires OnlyFrom(want, seqNo, blob)
    ensures var b := Filled(want, ChunkCount(blob) * CHUNK);
            && b.Some?
            && (b.value.out[..|blob|] == blob <==>
                forall k :: 0 <= k < ChunkCount(blob) ==> Present(want, k) || ZeroChunk(blob, k))
  {
    FilledWithBlob(want, seqNo, blob);
    var out := Filled(want, ChunkCount(blob) * CHUNK).value.out;
    if forall k :: 0 <= k < ChunkCount(blob) ==> Present(want, k) || ZeroChunk(blob, k) {
      forall i | 0 <= i < |blob| ensures out[i] == blob[i] {
        assert Present(want, i / CHUNK) || ZeroChunk(blob, i / CHUNK);
        assert (i / CHUNK) * CHUNK <= i < (i / CHUNK) * CHUNK + CHUNK;
      }
      assert out[..|blob|] == blob;
    } else {
      var k :| 0 <= k < ChunkCount(blob) && !Present(want, k) && !ZeroChunk(blob, k);
      var i :| k * CHUNK <= i < k * CHUNK + CHUNK && i < |blob| && blob[i] != 0;
      assert i / CHUNK == k;
      assert out[..|blob|][i] != blob[i];
    }
  }

  /** EXACT FETCH.  Over any receivables of which those under this sequence number are chunks
      of the blob, `fetch` returns the blob exactly when as many chunks were read as the blob
      has and any chunk not among them is all zeros anyway. */
  lemma FetchesExactly(entries: seq<Receivable>, seqNo: nat, blob: seq<Byte>)
    requires OnlyFrom(Want(entries, seqNo), seqNo, blob)
    ensures var want := Want(entries, seqNo);
            FetchedFrom(entries, seqNo) == Blob(blob) <==>
              && ReadCount(want) >= ChunkCount(blob)
              && forall k :: 0 <= k < ChunkCount(blob) ==> Present(want, k) || ZeroChunk(blob, k)
  {
    var want := Want(entries, seqNo);
    CountIndices(want);
    if want != [] {
      FilledWithBlob(want, seqNo, blob);
      FetchedWhenCounted(want, seqNo, blob);
    }
  }

  /** ROUND TRIP.  With every chunk there, repeats and all, in any order, `fetch` returns the
      blob; and without repeats it returns nothing before that. */
  lemma RoundTrip(entries: seq<Receivable>, seqNo: nat, blob: seq<Byte>)
    requires OnlyFrom(Want(entries, seqNo), seqNo, blob)
    ensures AllPresent(Want(entries, seqNo), blob) ==> FetchedFrom(entries, seqNo) == Blob(blob)
    ensures DistinctIndices(Want(entries, seqNo)) && !AllPresent(Want(entries, seqNo), blob) ==>
              FetchedFrom(entries, seqNo) == Pending
  {
    var want := Want(entries, seqNo);
    CountIndices(want);
    PresentIsCounted(want, seqNo, blob);
    FetchesExactly(entries, seqNo, blob);
    if want != [] {
      FilledWithBlob(want, seqNo, blob);
    }
  }

  // ---------- what post puts on the chain is what fetch can use ----------

  predicate Shows(r: Receivable, s: Send) {
    r.amount == s.amount && (r.representative.Some? ==> r.representative.value == s.chunk)
  }

  /** The receivables of some sends, as a node lists them: any order, any of them unread. */
  predicate Lists(entries: seq<Receivable>, sends: seq<Send>, seqNo: nat) {
    forall i :: 0 <= i < |entries| ==>
      var h := Unpack(entries[i].amount);
      h.Some? && h.value.seqNo == seqNo ==>
        exists s :: s in sends && Shows(entries[i], s)
  }

  lemma {:induction false} WantComesFrom(entries: seq<Receivable>, seqNo: nat, i: nat) returns (j: nat)
    requires i < |Want(entries, seqNo)|
    ensures j < |entries| && Unpack(entries[j].amount) == Some(Want(entries, seqNo)[i].header)
    ensures Want(entries, seqNo)[i].header.seqNo == seqNo
    ensures entries[j].representative == Want(entries, seqNo)[i].representative
  {
    var front := entries[..|entries| - 1];
    if i < |Want(front, seqNo)| {
      j := WantComesFrom(front, seqNo, i);
    } else {
      j := |entries| - 1;
    }
  }

  /** Any run of `post` leaves receivables the round trip applies to. */
  lemma PostedIsFetchable(sends: seq<Send>, entries: seq<Receivable>, seqNo: nat, blob: seq<Byte>)
    requires seqNo < 65536 && |blob| < 65536
    requires IsRun(sends, seqNo, blob, 0) && Lists(entries, sends, seqNo)
    ensures OnlyFrom(Want(entries, seqNo), seqNo, blob)
  {
    var want := Want(entries, seqNo);
    forall i | 0 <= i < |want|
      ensures want[i].header.idx < ChunkCount(blob)
      ensures want[i].header == Header(seqNo, want[i].header.idx, ChunkCount(blob), |blob|)
      ensures want[i].representative.Some? ==> want[i].representative.value == ChunkOf(blob, want[i].header.idx)
    {
      var j := WantComesFrom(entries, seqNo, i);
      var s :| s in sends && Shows(entries[j], s);
      var k :| 0 <= k < ChunkCount(blob) && s == ChunkSend(seqNo, blob, k);
      UnpackPack(Header(seqNo, k, ChunkCount(blob), |blob|));
    }
  }

  lemma {:induction false} WantHas(entries: seq<Receivable>, seqNo: nat, j: nat) returns (i: nat)
    requires j < |entries| && Unpack(entries[j].amount).Some? && Unpack(entries[j].amount).value.seqNo == seqNo
    ensures i < |Want(entries, seqNo)|
    ensures Want(entries, seqNo)[i] == Arrived(Unpack(entries[j].amount).value, entries[j].representative)
  {
    var front := entries[..|entries| - 1];
    if j < |front| {
      i := WantHas(front, seqNo, j);
    } else {
      i := |Want(front, seqNo)|;
    }
  }

  lemma ListingLists(sends: seq<Send>, receivables: seq<Receivable>, seqNo: nat)
    requires Lists(receivables, sends, seqNo)
    ensures Lists(Listed(receivables), sends, seqNo)
  {
    var entries := Listed(receivables);
    forall i | 0 <= i < |entries| ensures entries[i] == receivables[i] {
    }
  }

  /** A chunk whose send is listed and read is present. */
  lemma ListedIsPresent(entries: seq<Receivable>, seqNo: nat, blob: seq<Byte>, k: nat)
    requires seqNo < 65536 && |blob| < 65536 && k < ChunkCount(blob)
    requires var s := ChunkSend(seqNo, blob, k); Receivable(s.amount, Some(s.chunk)) in entries
    ensures Present(Want(entries, seqNo), k)
  {
    var s := ChunkSend(seqNo, blob, k);
    var j :| 0 <= j < |entries| && entries[j] == Receivable(s.amount, Some(s.chunk));
    UnpackPack(Header(seqNo, k, ChunkCount(blob), |blob|));
    var i := WantHas(entries, seqNo, j);
  }

  /** From `post` to `fetch`: once every send of a successful post is listed and read, the
      fetch returns exactly the posted blob, whatever rejections and repeats it took. */
  lemma PostThenFetch(sends: seq<Send>, receivables: seq<Receivable>, seqNo: nat, blob: seq<Byte>)
    requires seqNo < 65536 && |blob| < 65536
    requires IsRun(sends, seqNo, blob, ChunkCount(blob)) && Lists(receivables, sends, seqNo)
    requires forall s <- sends :: Receivable(s.amount, Some(s.chunk)) in Listed(receivables)
    ensures FetchedFrom(Listed(receivables), seqNo) == Blob(blob)
  {
    var entries := Listed(receivables);
    ListingLists(sends, receivables, seqNo);
    PostedIsFetchable(sends, entries, seqNo, blob);
    forall k | 0 <= k < ChunkCount(blob) ensures Present(Want(entries, seqNo), k) {
      ListedIsPresent(entries, seqNo, blob, k);
    }
    RoundTrip(entries, seqNo, blob);
  }

  lemma {:induction false} WantIsShort(entries: seq<Receivable>, seqNo: nat)
    ensures |Want(entries, seqNo)| <= |entries|
  {
    if entries != [] {
      WantIsShort(entries[..|entries| - 1], seqNo);
    }
  }

  /** A message of more chunks than a node lists is never fetched, however often it is tried. */
  lemma TooLongIsPending(receivables: seq<Receivable>, seqNo: nat, blob: seq<Byte>)
    requires OnlyFrom(Want(Listed(receivables), seqNo), seqNo, blob) && ChunkCount(blob) > LIST_LIMIT
    ensures FetchedFrom(Listed(receivables), seqNo) == Pending
  {
    var want := Want(Listed(receivables), seqNo);
    WantIsShort(Listed(receivables), seqNo);
    if want != [] {
      assert want[0].header.total == ChunkCount(blob);
    }
  }

  function AllSends(seqNo: nat, blob: seq<Byte>): seq<Send> {
    seq(ChunkCount(blob), k requires 0 <= k < ChunkCount(blob) => ChunkSend(seqNo, blob, k))
  }

  function AllReceived(seqNo: nat, blob: seq<Byte>): seq<Receivable> {
    seq(ChunkCount(blob), k requires 0 <= k < ChunkCount(blob) =>
          var s := ChunkSend(seqNo, blob, k);
          Receivable(s.amount, Some(s.chunk)))
  }

  /** The mailbox holds this message's sends and perhaps others', and a fetch returns it. */
  ghost predicate CanBeFetched(seqNo: nat, blob: seq<Byte>) {
    exists receivables ::
      && OnlyFrom(Want(Listed(receivables), seqNo), seqNo, blob)
      && FetchedFrom(Listed(receivables), seqNo) == Blob(blob)
  }

  /** EXACTLY.  A posted blob can ever be fetched if and only if it is at most 500 chunks long. */
  lemma FetchableExactly(seqNo: nat, blob: seq<Byte>)
    requires seqNo < 65536 && |blob| < 65536
    ensures CanBeFetched(seqNo, blob) <==> ChunkCount(blob) <= LIST_LIMIT
  {
    if ChunkCount(blob) <= LIST_LIMIT {
      var sends, all := AllSends(seqNo, blob), AllReceived(seqNo, blob);
      forall k | 0 <= k < ChunkCount(blob) ensures ChunkSend(seqNo, blob, k) in sends {
        assert sends[k] == ChunkSend(seqNo, blob, k);
      }
      forall i | 0 <= i < |all|
        ensures exists s :: s in sends && all[i] == Receivable(s.amount, Some(s.chunk))
      {
        assert sends[i] in sends;
      }
      forall s <- sends ensures Receivable(s.amount, Some(s.chunk)) in Listed(all) {
        var k :| 0 <= k < |sends| && sends[k] == s;
        assert all[k] == Receivable(s.amount, Some(s.chunk));
      }
      PostThenFetch(sends, all, seqNo, blob);
      PostedIsFetchable(sends, Listed(all), seqNo, blob);
    } else {
      forall receivables | OnlyFrom(Want(Listed(receivables), seqNo), seqNo, blob)
        ensures FetchedFrom(Listed(receivables), seqNo) == Pending
      {
        TooLongIsPending(receivables, seqNo, blob);
      }
    }
  }

  lemma Twice(e: Receivable, h: Header)
    requires Unpack(e.amount) == Some(h)
    ensures var a := Arrived(h, e.representative);
            && Want([e, e], h.seqNo) == [a, a]
            && (Readable(a) ==> ReadCount([a, a]) == 2)
            && forall k :: Present([a, a], k) ==> k == h.idx
  {
    var a := Arrived(h, e.representative);
    assert [e, e][..1] == [e] && [e][..0] == [];
    assert [a, a][..1] == [a] && [a][..0] == [];
    assert Want([e], h.seqNo) == [a];
    assert ReadCount([a]) == if Readable(a) then 1 else 0;
  }

  /** A repeat can stand in for a missing chunk: two copies of the first of two chunks are
      taken for the whole message. */
  lemma RepeatHidesGap() returns (entries: seq<Receivable>, blob: seq<Byte>, got: seq<Byte>)
    ensures OnlyFrom(Want(entries, 0), 0, blob)
    ensures FetchedFrom(entries, 0) == Blob(got) && got != blob
  {
    blob := seq(64, _ => 1);
    var h := Header(0, 0, 2, 64);
    var e := Receivable(Pack(h), Some(ChunkOf(blob, 0)));
    entries := [e, e];
    UnpackPack(h);
    Twice(e, h);
    var want := Want(entries, 0);
    FilledWithBlob(want, 0, blob);
    got := Filled(want, 64).value.out[..64];
    assert got[32] == 0;
  }
}
