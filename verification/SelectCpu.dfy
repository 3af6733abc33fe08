/** Choosing the CPU a readied task goes to, from a snapshot of the published loads. */
module SelectCpu {
  import opened Types
  import opened Bits
  import opened SchedCpu
  import opened Scheduling

  /** An affinity mask as its set bits, lowest first, on a machine of `n` CPUs. */
  ghost predicate Mask(ones: seq<nat>, n: nat) {
    && (forall i :: 0 <= i < |ones| ==> ones[i] < n)
    && (forall i, j :: 0 <= i < j < |ones| ==> ones[i] < ones[j])
  }

  /** No two loads differ by exactly one. */
  ghost predicate Spread(loads: seq<nat>) {
    forall a, b :: 0 <= a < |loads| && 0 <= b < |loads| ==> loads[a] != loads[b] + 1
  }

  function Rank(c: nat, cur: nat, last: Option<nat>): nat {
    if last == Some(c) then 2 else if c == cur then 1 else 0
  }

  /** The order the choice promises: load first, then the last CPU, the current one, the lowest index. */
  ghost predicate Beats(loads: seq<nat>, cur: nat, last: Option<nat>, x: nat, y: nat)
    requires x < |loads| && y < |loads|
  {
    || loads[x] < loads[y]
    || (loads[x] == loads[y]
        && (Rank(x, cur, last) > Rank(y, cur, last) || (Rank(x, cur, last) == Rank(y, cur, last) && x < y)))
  }

  function LastWeight(a: nat, b: nat, last: Option<nat>): int {
    match last
    case None => 0
    case Some(l) => if a == l && b != l then 1 else if a != l && b == l then -1 else 0
  }

  function CurWeight(a: nat, b: nat, cur: nat): int {
    if a == cur && b != cur then 1 else if a != cur && b == cur then -1 else 0
  }

  function LoadWeight(ra: nat, rb: nat): int {
    var diff := if ra < rb then rb - ra else ra - rb;
    if diff <= 1 then 0 else if ra > rb then 0 - Msb(diff + 1) else Msb(diff + 1)
  }

  function Weight(a: nat, b: nat, ra: nat, rb: nat, cur: nat, last: Option<nat>): int {
    LastWeight(a, b, last) * 15 + CurWeight(a, b, cur) + LoadWeight(ra, rb) * 40
  }

  /** The weighted sum decides exactly as the promised order does. */
  lemma WeightDecides(loads: seq<nat>, cur: nat, last: Option<nat>, a: nat, b: nat)
    requires Spread(loads) && a < b < |loads|
    ensures Weight(a, b, loads[a], loads[b], cur, last) < 0 <==> Beats(loads, cur, last, b, a)
  {
    hide Msb;
    var diff := if loads[a] < loads[b] then loads[b] - loads[a] else loads[a] - loads[b];
    if diff > 1 { MsbPositive(diff + 1); }
  }

  ghost predicate Decides(loads: seq<nat>, cur: nat, last: Option<nat>, a: nat, b: nat)
    requires a < |loads| && b < |loads|
  {
    Weight(a, b, loads[a], loads[b], cur, last) < 0 <==> Beats(loads, cur, last, b, a)
  }

  /** It does so for every pair, current and last CPU if and only if no two loads differ by one. */
  lemma DecidesIffSpread(loads: seq<nat>)
    ensures Spread(loads) <==>
      forall cur: nat, last: Option<nat>, a: nat, b: nat :: a < b < |loads| ==> Decides(loads, cur, last, a, b)
  {
    if Spread(loads) {
      forall cur: nat, last: Option<nat>, a: nat, b: nat | a < b < |loads|
        ensures Decides(loads, cur, last, a, b)
      {
        WeightDecides(loads, cur, last, a, b);
      }
    } else {
      var a: nat, b: nat :| a < |loads| && b < |loads| && loads[a] == loads[b] + 1;
      if a < b {
        assert !Decides(loads, |loads|, None, a, b);
      } else {
        assert !Decides(loads, |loads|, Some(a), b, a);
      }
    }
  }

  lemma MsbPositive(n: nat)
    requires n > 1
    ensures Msb(n) >= 1
  {
  }

  /** Among the first `k` candidates `r` beats every other. */
  ghost predicate Best(loads: seq<nat>, ones: seq<nat>, cur: nat, last: Option<nat>, r: nat, k: nat)
    requires Mask(ones, |loads|) && r < |loads| && k <= |ones|
  {
    r in ones[..k] && forall x :: x in ones[..k] && x != r ==> Beats(loads, cur, last, r, x)
  }

  /** Whichever of the best so far and the next candidate wins is the best of both. */
  lemma NextCandidate(loads: seq<nat>, ones: seq<nat>, cur: nat, last: Option<nat>, r: nat, k: nat)
    requires Mask(ones, |loads|) && r < |loads| && k < |ones| && Best(loads, ones, cur, last, r, k)
    ensures r < ones[k] && ones[..k + 1] == ones[..k] + [ones[k]]
    ensures Beats(loads, cur, last, ones[k], r) ==> Best(loads, ones, cur, last, ones[k], k + 1)
    ensures !Beats(loads, cur, last, ones[k], r) ==> Best(loads, ones, cur, last, r, k + 1)
  {
    assert ones[..k + 1] == ones[..k] + [ones[k]];
  }

  ghost predicate Least(loads: seq<nat>, ones: seq<nat>, r: nat)
    requires Mask(ones, |loads|)
  {
    r < |loads| && forall x :: x in ones ==> loads[r] <= loads[x]
  }

  lemma BestIsLeast(loads: seq<nat>, ones: seq<nat>, cur: nat, last: Option<nat>, r: nat)
    requires Mask(ones, |loads|) && r < |loads| && Best(loads, ones, cur, last, r, |ones|)
    ensures Least(loads, ones, r)
  {
    assert ones[..|ones|] == ones;
  }

  method SelectCpu(loads: seq<nat>, ones: seq<nat>, cur: nat, last: Option<nat>) returns (r: Option<nat>)
    requires Mask(ones, |loads|)
    ensures r.None? <==> ones == []
    ensures r.Some? ==> r.value in ones
    ensures cur in ones && loads[cur] == 0 ==> r == Some(cur)
    ensures Spread(loads) && r.Some? ==> Least(loads, ones, r.value)
    ensures Spread(loads) && r.Some? && !(cur in ones && loads[cur] == 0) ==>
      forall x :: x in ones && x != r.value ==> Beats(loads, cur, last, r.value, x)
  {
    hide Weight, Spread, Beats, Rank;
    if ones == [] { return None; }
    var ret := ones[0];
    var rret := loads[ret];
    if ret == cur && rret == 0 { return Some(ret); }
    for k := 1 to |ones|
      invariant ret < |loads| && ret in ones[..k] && rret == loads[ret]
      invariant cur in ones[..k] ==> loads[cur] != 0
      invariant Spread(loads) ==> Best(loads, ones, cur, last, ret, k)
    {
      var b := ones[k];
      var rb := loads[b];
      if b == cur && rb == 0 { return Some(b); }
      assert ret < b && ones[..k + 1] == ones[..k] + [b];
      if Spread(loads) {
        WeightDecides(loads, cur, last, ret, b);
        NextCandidate(loads, ones, cur, last, ret, k);
      }
      if Weight(ret, b, rret, rb, cur, last) < 0 {
        ret, rret := b, rb;
      }
    }
    assert ones[..|ones|] == ones;
    if Spread(loads) { BestIsLeast(loads, ones, cur, last, ret); }
    r := Some(ret);
  }

  /** A snapshot of the published loads. */
  ghost function Loads(cpus: seq<Cpu>): (r: seq<nat>)
    requires forall c :: 0 <= c < |cpus| ==> cpus[c].load >= 0
    ensures |r| == |cpus| && forall c :: 0 <= c < |cpus| ==> r[c] == cpus[c].load
  {
    if cpus == [] then [] else Loads(cpus[..|cpus| - 1]) + [cpus[|cpus| - 1].load]
  }

  /** In every reachable state the loads are fit for the choice, and the least load means the fewest tasks. */
  lemma LoadsAreFit(n: nat, moves: seq<Move>)
    ensures var cpus := Run(Boot(n), moves).cpus;
      && (forall c :: 0 <= c < |cpus| ==> cpus[c].load >= 0)
      && Spread(Loads(cpus))
      && (forall a, b :: 0 <= a < |cpus| && 0 <= b < |cpus| ==>
            (Loads(cpus)[a] <= Loads(cpus)[b] <==> Charged(cpus[a]) <= Charged(cpus[b])))
  {
    hide Run, Boot;
    var cpus := Run(Boot(n), moves).cpus;
    forall c | 0 <= c < |cpus|
      ensures cpus[c].load == SLICE_US * Charged(cpus[c])
    {
      LoadIsCharge(n, moves, c);
    }
  }
}
