/** Chunk schedules: `buildSchedule` of web/swap_machine.js. */
module Schedule {
  import opened Common

  datatype ScheduleError = ZeroTotal | BadBounds | TooManyChunks

  function Sum(chunks: seq<nat>): nat {
    if chunks == [] then 0 else Sum(chunks[..|chunks| - 1]) + chunks[|chunks| - 1]
  }

  function Max(chunks: seq<nat>): (most: nat)
    ensures forall i :: 0 <= i < |chunks| ==> chunks[i] <= most
  {
    if chunks == [] then 0
    else
      var m := Max(chunks[..|chunks| - 1]);
      var last := chunks[|chunks| - 1];
      if last > m then last else m
  }

  function Min(a: nat, b: nat): nat { if a < b then a else b }

  function CeilDiv(n: nat, d: nat): nat
    requires d > 0
  {
    (n + d - 1) / d
  }

  function Full(n: nat, chunk: nat): seq<nat> {
    seq(n, _ => chunk)
  }

  /** The schedule in closed form: full chunks, and a last one or two holding what is left.
      A tail under `minChunk` is evened out with the chunk before it. */
  function Planned(total: nat, minChunk: nat, maxChunk: nat): seq<nat>
    requires total > 0 && maxChunk > 0
  {
    var n := CeilDiv(total, maxChunk);
    CeilDivBounds(total, maxChunk);
    var tail := total - (n - 1) * maxChunk;
    if n == 1 then [total]
    else if tail < minChunk then
      Full(n - 2, maxChunk) + [(maxChunk + tail) / 2, (maxChunk + tail) - (maxChunk + tail) / 2]
    else Full(n - 1, maxChunk) + [tail]
  }

  // ---------- arithmetic ----------

  lemma MulMono(a: int, b: int, d: nat)
    ensures a <= b ==> a * d <= b * d
  {
  }

  lemma CeilDivBounds(n: nat, d: nat)
    requires n > 0 && d > 0
    ensures CeilDiv(n, d) >= 1
    ensures (CeilDiv(n, d) - 1) * d < n <= CeilDiv(n, d) * d
  {
    var q := CeilDiv(n, d);
    assert n + d - 1 == q * d + (n + d - 1) % d;
    assert (q - 1) * d == q * d - d;
  }

  /** `CeilDiv(n, d)` is the least q with n <= q * d. */
  lemma CeilDivLeast(n: nat, d: nat, q: nat)
    requires n > 0 && d > 0
    ensures n <= q * d <==> CeilDiv(n, d) <= q
  {
    var c := CeilDiv(n, d);
    CeilDivBounds(n, d);
    MulMono(c, q, d);
    MulMono(q, c - 1, d);
  }

  // ---------- sums ----------

  lemma {:induction false} SumConcat(a: seq<nat>, b: seq<nat>)
    ensures Sum(a + b) == Sum(a) + Sum(b)
  {
    if b == [] {
      assert a + b == a;
    } else {
      assert (a + b)[..|a + b| - 1] == a + b[..|b| - 1];
      SumConcat(a, b[..|b| - 1]);
    }
  }

  lemma SumOne()
    ensures forall x: nat :: Sum([x]) == x
  {
    forall x: nat ensures Sum([x]) == x {
      assert [x][..0] == [];
    }
  }

  lemma {:induction false} SumBound(chunks: seq<nat>, cap: nat)
    requires forall i :: 0 <= i < |chunks| ==> chunks[i] <= cap
    ensures Sum(chunks) <= |chunks| * cap
  {
    if chunks != [] {
      SumBound(chunks[..|chunks| - 1], cap);
      assert |chunks| * cap == (|chunks| - 1) * cap + cap;
    }
  }

  lemma {:induction false} SumFull(n: nat, chunk: nat)
    ensures Sum(Full(n, chunk)) == n * chunk
  {
    if n > 0 {
      assert Full(n, chunk)[..n - 1] == Full(n - 1, chunk);
      SumFull(n - 1, chunk);
      assert n * chunk == (n - 1) * chunk + chunk;
    }
  }

  // ---------- what the plan promises ----------

  /** No cut of `total` into chunks of at most `maxChunk` has fewer chunks than the plan. */
  lemma FewestChunks(total: nat, maxChunk: nat, cut: seq<nat>)
    requires total > 0 && maxChunk > 0 && Sum(cut) == total
    requires forall i :: 0 <= i < |cut| ==> cut[i] <= maxChunk
    ensures CeilDiv(total, maxChunk) <= |cut|
  {
    SumBound(cut, maxChunk);
    CeilDivLeast(total, maxChunk, |cut|);
  }

  predicate GoodChunk(chunk: nat, total: nat, minChunk: nat, maxChunk: nat)
    requires maxChunk > 0
  {
    0 < chunk <= maxChunk && chunk >= Min(total, Min(minChunk, CeilDiv(maxChunk, 2)))
  }

  lemma PlanTotal(total: nat, minChunk: nat, maxChunk: nat)
    requires total > 0 && maxChunk > 0
    ensures Sum(Planned(total, minChunk, maxChunk)) == total
    ensures |Planned(total, minChunk, maxChunk)| == CeilDiv(total, maxChunk)
  {
    var n := CeilDiv(total, maxChunk);
    CeilDivBounds(total, maxChunk);
    SumOne();
    var tail := total - (n - 1) * maxChunk;
    if n > 1 && tail < minChunk {
      var half := (maxChunk + tail) / 2;
      var rest := maxChunk + tail - half;
      SumFull(n - 2, maxChunk);
      assert (n - 1) * maxChunk == (n - 2) * maxChunk + maxChunk;
      assert [half, rest] == [half] + [rest];
      SumConcat([half], [rest]);
      SumConcat(Full(n - 2, maxChunk), [half, rest]);
    } else if n > 1 {
      SumFull(n - 1, maxChunk);
      SumConcat(Full(n - 1, maxChunk), [tail]);
    }
  }

  lemma HalvesAreGood(total: nat, minChunk: nat, maxChunk: nat, tail: nat)
    requires 0 < tail < minChunk <= maxChunk
    ensures GoodChunk((maxChunk + tail) / 2, total, minChunk, maxChunk)
    ensures GoodChunk((maxChunk + tail) - (maxChunk + tail) / 2, total, minChunk, maxChunk)
  {
  }

  lemma PlanChunks(total: nat, minChunk: nat, maxChunk: nat)
    requires total > 0 && maxChunk > 0 && minChunk <= maxChunk
    ensures var plan := Planned(total, minChunk, maxChunk);
            forall i :: 0 <= i < |plan| ==> GoodChunk(plan[i], total, minChunk, maxChunk)
  {
    var n := CeilDiv(total, maxChunk);
    CeilDivBounds(total, maxChunk);
    var tail := total - (n - 1) * maxChunk;
    assert n * maxChunk == (n - 1) * maxChunk + maxChunk;
    if n > 1 && tail < minChunk {
      HalvesAreGood(total, minChunk, maxChunk, tail);
    }
  }

  /** Chunks are full up to the last; only a last one too small is evened out with the one before it. */
  lemma PlanShape(total: nat, minChunk: nat, maxChunk: nat)
    requires total > 0 && maxChunk > 0
    ensures var (plan, n) := (Planned(total, minChunk, maxChunk), CeilDiv(total, maxChunk));
            && |plan| == n && (forall i :: 0 <= i < n - 2 ==> plan[i] == maxChunk)
            && (n >= 2 ==>
                  if total - (n - 1) * maxChunk >= minChunk then plan[n - 2] == maxChunk
                  else plan[n - 2] <= plan[n - 1] <= plan[n - 2] + 1)
  {
    CeilDivBounds(total, maxChunk);
  }

  /** `buildSchedule`: which inputs it refuses and why, and exactly what it returns. */
  method BuildSchedule(total: nat, minChunk: nat, maxChunk: nat, maxChunks: nat)
    returns (r: Result<seq<nat>, ScheduleError>)
    ensures r == Err(ZeroTotal) <==> total == 0
    ensures r == Err(BadBounds) <==> total > 0 && (maxChunk == 0 || minChunk > maxChunk)
    ensures r == Err(TooManyChunks) <==>
            total > 0 && maxChunk > 0 && minChunk <= maxChunk && CeilDiv(total, maxChunk) > maxChunks
    ensures r.Ok? ==>
            && total > 0 && maxChunk > 0
            && r.value == Planned(total, minChunk, maxChunk)
            && Sum(r.value) == total
            && |r.value| == CeilDiv(total, maxChunk)
            && (forall i :: 0 <= i < |r.value| ==> GoodChunk(r.value[i], total, minChunk, maxChunk))
            && (forall i :: 0 <= i < |r.value| - 2 ==> r.value[i] == maxChunk)
  {
    if total == 0 { return Err(ZeroTotal); }
    if maxChunk == 0 || minChunk > maxChunk { return Err(BadBounds); }
    ghost var n := CeilDiv(total, maxChunk);
    CeilDivBounds(total, maxChunk);
    var chunks := [];
    var remaining := total;
    while remaining > 0
      invariant 0 <= remaining
      invariant remaining > 0 ==>
                chunks == Full(|chunks|, maxChunk) && |chunks| < n && remaining == total - |chunks| * maxChunk
      invariant remaining > 0 && chunks != [] ==> remaining >= minChunk
      invariant remaining == 0 ==> chunks == Planned(total, minChunk, maxChunk) && n <= maxChunks
    {
      var k := |chunks|;
      if k >= maxChunks { return Err(TooManyChunks); }
      assert (k + 1) * maxChunk == k * maxChunk + maxChunk && (k + 2) * maxChunk == k * maxChunk + 2 * maxChunk;
      CeilDivLeast(total, maxChunk, k + 1);
      CeilDivLeast(total, maxChunk, k + 2);
      if remaining <= maxChunk {
        assert n == k + 1;
        chunks, remaining := chunks + [remaining], 0;
      } else if remaining - maxChunk < minChunk {
        assert n == k + 2;
        if k + 2 > maxChunks { return Err(TooManyChunks); }
        var half := remaining / 2;
        chunks, remaining := chunks + [half, remaining - half], 0;
      } else {
        chunks, remaining := chunks + [maxChunk], remaining - maxChunk;
      }
    }
    PlanTotal(total, minChunk, maxChunk);
    PlanChunks(total, minChunk, maxChunk);
    PlanShape(total, minChunk, maxChunk);
    r := Ok(chunks);
  }
}
