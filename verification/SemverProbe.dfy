/** Semver probing (internal/app/agent/discovery.go): a galloping and then binary search
    over an existence oracle, and its agreement with the list path. */
module SemverProbe {
  import opened Common
  import opened SemverOrder

  datatype Answer = Yes | No | Failed

  /** What one component search ends with; Aborted is an oracle error or a cancelled context. */
  datatype Search = NotFound | Found(at: int) | Aborted

  type Oracle = int -> Answer

  function Pow2(k: nat): (r: nat)
    ensures r > 0
  {
    if k == 0 then 1 else 2 * Pow2(k - 1)
  }

  function Log2(d: nat): (k: nat)
    requires d > 0
    ensures Pow2(k) <= d < Pow2(k + 1)
  {
    if d == 1 then 0 else Log2(d / 2) + 1
  }

  lemma {:induction false} Pow2Monotone(j: nat, k: nat)
    requires j <= k
    ensures Pow2(j) <= Pow2(k)
  {
    if j < k { Pow2Monotone(j, k - 1); }
  }

  lemma Pow2Step(k: nat)
    ensures Pow2(k + 1) == 2 * Pow2(k)
  {}

  const TOP: nat := 62

  lemma Pow2Top()
    ensures Pow2(60) == 0x1000_0000_0000_0000 && Pow2(TOP) == 4 * Pow2(60)
  {
    assert Pow2(12) == 4096;
    assert Pow2(24) == 4096 * 4096 by { Pow2Sum(12, 12); }
    assert Pow2(48) == Pow2(24) * Pow2(24) by { Pow2Sum(24, 24); }
    assert Pow2(60) == Pow2(48) * Pow2(12) by { Pow2Sum(48, 12); }
    assert Pow2(61) == 2 * Pow2(60);
  }

  lemma {:induction false} Pow2Sum(j: nat, k: nat)
    ensures Pow2(j + k) == Pow2(j) * Pow2(k)
  {
    if k > 0 {
      Pow2Sum(j, k - 1);
      assert Pow2(j + k) == 2 * Pow2(j + k - 1);
    }
  }

  // ----- The search as a function: its result and how many probes it took -----

  function Counted(r: (Search, nat)): (Search, nat) { (r.0, r.1 + 1) }

  function Bisect(oracle: Oracle, low: int, high: int): (Search, nat)
    decreases high - low
  {
    if low >= high then (Found(low), 0)
    else
      var mid := (low + high + 1) / 2;
      match oracle(mid)
      case Failed => (Aborted, 1)
      case Yes => Counted(Bisect(oracle, mid, high))
      case No => Counted(Bisect(oracle, low, mid - 1))
  }

  /** Rounds k, k+1, ... with steps 2^k, 2^(k+1), ...; `cancelled(k)` says whether the
      context is done when round k has succeeded. */
  function Gallop(oracle: Oracle, cancelled: nat -> bool, start: int, k: nat): (Search, nat)
    requires k <= TOP
    decreases TOP - k
  {
    var candidate := start + Pow2(k);
    match oracle(candidate)
    case Failed => (Aborted, 1)
    case No => Counted(Bisect(oracle, if k == 0 then start else start + Pow2(k - 1), candidate - 1))
    case Yes =>
      if k == TOP then (Found(candidate), 1)
      else if cancelled(k) then (Aborted, 1)
      else Counted(Gallop(oracle, cancelled, start, k + 1))
  }

  function Probe(oracle: Oracle, cancelled: nat -> bool, start: int): (Search, nat) {
    if start < 0 then (NotFound, 0)
    else match oracle(start)
      case Failed => (Aborted, 1)
      case No => (NotFound, 1)
      case Yes => Counted(Gallop(oracle, cancelled, start, 0))
  }

  // ----- Any oracle -----

  lemma {:induction false} BisectFindsEdge(oracle: Oracle, low: int, high: int)
    requires low <= high && oracle(low) == Yes && oracle(high + 1) == No
    ensures var r := Bisect(oracle, low, high).0;
            r.Found? ==> low <= r.at <= high && oracle(r.at) == Yes && oracle(r.at + 1) == No
    ensures Bisect(oracle, low, high).0 != NotFound
    ensures Bisect(oracle, low, high).0.Aborted? ==> exists i :: low < i <= high && oracle(i) == Failed
    decreases high - low
  {
    if low < high {
      var mid := (low + high + 1) / 2;
      match oracle(mid)
      case Failed =>
      case Yes => BisectFindsEdge(oracle, mid, high);
      case No => BisectFindsEdge(oracle, low, mid - 1);
    }
  }

  ghost predicate Disturbed(oracle: Oracle, cancelled: nat -> bool) {
    (exists i :: oracle(i) == Failed) || (exists j :: cancelled(j))
  }

  /** `r` is an existing value from `start` on whose successor does not exist, or the value
      at which the doubling step left the integer range. */
  ghost predicate AtEdge(oracle: Oracle, start: int, r: int) {
    r >= start && oracle(r) == Yes && (oracle(r + 1) == No || r == start + Pow2(TOP))
  }

  lemma {:induction false} GallopFindsEdge(oracle: Oracle, cancelled: nat -> bool, start: int, k: nat)
    requires k <= TOP
    requires oracle(if k == 0 then start else start + Pow2(k - 1)) == Yes
    ensures var r := Gallop(oracle, cancelled, start, k).0;
            && r != NotFound
            && (r.Found? ==> AtEdge(oracle, start, r.at))
            && (r.Aborted? ==> Disturbed(oracle, cancelled))
    decreases TOP - k
  {
    hide Pow2, Bisect;
    if k > 0 { Pow2Step(k - 1); }
    var candidate := start + Pow2(k);
    match oracle(candidate)
    case Failed =>
    case No => BisectFindsEdge(oracle, if k == 0 then start else start + Pow2(k - 1), candidate - 1);
    case Yes =>
      if k < TOP && !cancelled(k) {
        GallopFindsEdge(oracle, cancelled, start, k + 1);
      }
  }

  /** For any oracle at all: NotFound exactly when the first probe says so, and a search that
      ends on a failing probe stops on an existing value whose successor does not exist. */
  lemma ProbeFindsEdge(oracle: Oracle, cancelled: nat -> bool, start: int)
    ensures var r := Probe(oracle, cancelled, start).0;
            && (r == NotFound <==> start < 0 || oracle(start) == No)
            && (r.Found? ==> AtEdge(oracle, start, r.at))
            && (r.Aborted? ==> Disturbed(oracle, cancelled))
  {
    if start >= 0 && oracle(start) == Yes {
      GallopFindsEdge(oracle, cancelled, start, 0);
    }
  }

  // ----- Contiguous oracles: exact result and exact cost -----

  /** Above `start`, the oracle is true exactly up to start + d and never fails. */
  ghost predicate TrueUpTo(oracle: Oracle, start: int, d: nat) {
    forall i :: i >= start ==> oracle(i) == if i <= start + d then Yes else No
  }

  /** A range of 2^m values takes exactly m halvings. */
  lemma {:induction false} BisectExact(oracle: Oracle, start: int, d: nat, low: int, m: nat)
    requires TrueUpTo(oracle, start, d)
    requires start <= low <= start + d <= low + Pow2(m) - 1
    ensures Bisect(oracle, low, low + Pow2(m) - 1) == (Found(start + d), m)
    decreases m
  {
    if m > 0 {
      var mid := low + Pow2(m - 1);
      assert (low + (low + Pow2(m) - 1) + 1) / 2 == mid;
      if start + d >= mid {
        BisectExact(oracle, start, d, mid, m - 1);
      } else {
        BisectExact(oracle, start, d, low, m - 1);
      }
    }
  }

  lemma {:induction false} GallopExact(oracle: Oracle, cancelled: nat -> bool, start: int, d: nat, k: nat)
    requires TrueUpTo(oracle, start, d) && d > 0 && (forall j :: !cancelled(j))
    requires k <= Log2(d) + 1 <= TOP
    ensures Gallop(oracle, cancelled, start, k) == (Found(start + d), 2 * Log2(d) + 2 - k)
    decreases TOP - k
  {
    hide Pow2, Log2, Bisect;
    var l := Log2(d);
    if k == l + 1 {
      Pow2Step(l);
      BisectExact(oracle, start, d, start + Pow2(l), l);
    } else {
      Pow2Monotone(k, l);
      GallopExact(oracle, cancelled, start, d, k + 1);
    }
  }

  lemma Log2Below(d: nat)
    requires 0 < d < Pow2(TOP)
    ensures Log2(d) < TOP
  {
    hide Pow2, Log2;
    if Log2(d) >= TOP {
      Pow2Monotone(TOP, Log2(d));
    }
  }

  lemma ProbeAtStart(oracle: Oracle, cancelled: nat -> bool, start: int)
    requires start >= 0 && TrueUpTo(oracle, start, 0)
    ensures Probe(oracle, cancelled, start) == (Found(start), 2)
  {
    assert oracle(start) == Yes && oracle(start + 1) == No;
    assert Bisect(oracle, start, start) == (Found(start), 0);
    assert Pow2(0) == 1;
  }

  /** On an oracle true exactly on [start, start + d] the search returns start + d after
      exactly 2 * floor(log2 d) + 3 probes (2 probes when d is 0). */
  lemma ProbeExact(oracle: Oracle, cancelled: nat -> bool, start: int, d: nat)
    requires start >= 0 && d < Pow2(TOP)
    requires TrueUpTo(oracle, start, d) && (forall j :: !cancelled(j))
    ensures Probe(oracle, cancelled, start) == (Found(start + d), if d == 0 then 2 else 2 * Log2(d) + 3)
  {
    hide Pow2, Log2, Gallop;
    if d == 0 {
      ProbeAtStart(oracle, cancelled, start);
    } else {
      Log2Below(d);
      assert oracle(start) == Yes;
      GallopExact(oracle, cancelled, start, d, 0);
    }
  }

  // ----- The search loop in 64-bit arithmetic -----

  function Wrap64(x: int): (r: int)
    ensures -0x8000_0000_0000_0000 <= r < 0x8000_0000_0000_0000
    ensures -0x8000_0000_0000_0000 <= x < 0x8000_0000_0000_0000 ==> r == x
    ensures x == 0x8000_0000_0000_0000 ==> r == -x
  {
    (x + 0x8000_0000_0000_0000) % 0x1_0000_0000_0000_0000 - 0x8000_0000_0000_0000
  }

  /** Every gallop round succeeds but the one with the largest step. */
  ghost predicate FailsFirstAtTop(oracle: Oracle, start: int) {
    (forall k :: 0 <= k < TOP ==> oracle(start + Pow2(k)) == Yes) && oracle(start + Pow2(TOP)) == No
  }

  lemma Pow2Values(k: nat)
    requires k <= TOP
    ensures Pow2(k) <= 0x4000_0000_0000_0000 && (k == TOP <==> Pow2(k) == 0x4000_0000_0000_0000)
    ensures k < TOP ==> Pow2(k) <= 0x2000_0000_0000_0000
    ensures k == 0 ==> Pow2(k) == 1
  {
    Pow2Top();
    Pow2Monotone(k, TOP);
    if k < TOP { Pow2Monotone(k, TOP - 1); }
  }

  /** The binary search on low..high computes a midpoint whose sum leaves the 64-bit range. */
  ghost predicate Overflows(oracle: Oracle, low: int, high: int)
    decreases high - low
  {
    low < high &&
    var mid := (low + high + 1) / 2;
    (low + high + 1 >= 0x8000_0000_0000_0000 ||
     match oracle(mid)
     case Failed => false
     case Yes => Overflows(oracle, mid, high)
     case No => Overflows(oracle, low, mid - 1))
  }

  lemma {:induction false} SmallNeverOverflows(oracle: Oracle, low: int, high: int)
    requires high < 0x4000_0000_0000_0000
    ensures !Overflows(oracle, low, high)
    decreases high - low
  {
    if low < high {
      var mid := (low + high + 1) / 2;
      SmallNeverOverflows(oracle, mid, high);
      SmallNeverOverflows(oracle, low, mid - 1);
    }
  }

  /** Every gallop round succeeds but the one with the largest step, and the binary search
      below it overflows. */
  ghost predicate ProbeOverflows(oracle: Oracle, start: int) {
    FailsFirstAtTop(oracle, start) && Overflows(oracle, start + Pow2(TOP - 1), start + Pow2(TOP) - 1)
  }

  /** The inner loop of probeContiguousSemverComponent, in wrapping 64-bit arithmetic. */
  method BisectLoop(oracle: Oracle, low0: int, high0: int) returns (r: Search, probes: nat)
    requires 0 <= low0 && high0 < 0x8000_0000_0000_0000 && !Overflows(oracle, low0, high0)
    ensures (r, probes) == Bisect(oracle, low0, high0)
  {
    var low, high := low0, high0;
    probes := 0;
    while low < high
      invariant 0 <= low && high < 0x8000_0000_0000_0000 && !Overflows(oracle, low, high)
      invariant Bisect(oracle, low0, high0) == (Bisect(oracle, low, high).0, Bisect(oracle, low, high).1 + probes)
      decreases high - low
    {
      var mid := Wrap64(Wrap64(low + high) + 1) / 2;
      var found := oracle(mid);
      probes := probes + 1;
      if found.Failed? {
        return Aborted, probes;
      }
      if found.Yes? {
        low := mid;
      } else {
        high := Wrap64(mid - 1);
      }
    }
    return Found(low), probes;
  }

  lemma GallopRound(oracle: Oracle, cancelled: nat -> bool, start: int, k: nat)
    requires k <= TOP
    ensures var candidate := start + Pow2(k); var low := if k == 0 then start else start + Pow2(k - 1);
            Gallop(oracle, cancelled, start, k) ==
              match oracle(candidate)
              case Failed => (Aborted, 1)
              case No => Counted(Bisect(oracle, low, candidate - 1))
              case Yes => if k == TOP then (Found(candidate), 1)
                          else if cancelled(k) then (Aborted, 1)
                          else Counted(Gallop(oracle, cancelled, start, k + 1))
  {
    hide Pow2, Bisect, Log2;
  }

  /** A round that fails leaves a binary search that stays within 64 bits. */
  lemma RoundFits(oracle: Oracle, start: int, k: nat)
    requires k <= TOP && 0 <= start < 0x1000_0000_0000_0000 && !ProbeOverflows(oracle, start)
    requires (forall j :: 0 <= j < k ==> oracle(start + Pow2(j)) == Yes) && oracle(start + Pow2(k)) == No
    ensures !Overflows(oracle, if k == 0 then start else start + Pow2(k - 1), start + Pow2(k) - 1)
  {
    hide Pow2, Overflows;
    Pow2Values(k);
    if k < TOP {
      SmallNeverOverflows(oracle, if k == 0 then start else start + Pow2(k - 1), start + Pow2(k) - 1);
    }
  }

  /** The outer loop, entered when the first value exists. */
  method GallopLoop(oracle: Oracle, cancelled: nat -> bool, start: int) returns (r: Search, probes: nat)
    requires 0 <= start < 0x1000_0000_0000_0000 && !ProbeOverflows(oracle, start)
    ensures (r, probes) == Gallop(oracle, cancelled, start, 0)
  {
    hide Pow2, Bisect, Log2, Wrap64, Gallop, Overflows, ProbeOverflows;
    assert Pow2(0) == 1 by { Pow2Values(0); }
    var low, step, k := start, 1, 0;
    ghost var total := Gallop(oracle, cancelled, start, 0);
    while true
      invariant 0 <= k <= TOP && step == Pow2(k)
      invariant low == if k == 0 then start else start + Pow2(k - 1)
      invariant forall j :: 0 <= j < k ==> oracle(start + Pow2(j)) == Yes
      invariant total.0 == Gallop(oracle, cancelled, start, k).0
      invariant total.1 == Gallop(oracle, cancelled, start, k).1 + k
      decreases TOP - k
    {
      Pow2Values(k);
      Pow2Step(k);
      GallopRound(oracle, cancelled, start, k);
      var candidate := Wrap64(start + step);
      var ok := oracle(candidate);
      if ok.Failed? {
        return Aborted, k + 1;
      }
      if ok.No? {
        RoundFits(oracle, start, k);
        var more;
        r, more := BisectLoop(oracle, low, Wrap64(candidate - 1));
        return r, k + 1 + more;
      }
      low := candidate;
      step := Wrap64(step * 2);
      if step < 0 {
        return Found(low), k + 1;
      }
      if cancelled(k) {
        return Aborted, k + 1;
      }
      k := k + 1;
    }
  }

  /** probeContiguousSemverComponent in wrapping 64-bit arithmetic: below 2^60 it computes
      what the unbounded search does, unless the binary search below the largest step overflows. */
  method ProbeContiguous(oracle: Oracle, cancelled: nat -> bool, start: int) returns (r: Search, probes: nat)
    requires -0x8000_0000_0000_0000 <= start < 0x1000_0000_0000_0000
    requires start >= 0 ==> !ProbeOverflows(oracle, start)
    ensures (r, probes) == Probe(oracle, cancelled, start)
  {
    if start < 0 {
      return NotFound, 0;
    }
    var first := oracle(start);
    if first.Failed? {
      return Aborted, 1;
    }
    if first.No? {
      return NotFound, 1;
    }
    r, probes := GallopLoop(oracle, cancelled, start);
    probes := probes + 1;
  }

  // ----- When a row of values makes the search overflow -----

  lemma Log2Is(d: nat, k: nat)
    requires Pow2(k) <= d < Pow2(k + 1)
    ensures d > 0 && Log2(d) == k
  {
    hide Pow2, Log2;
    if Log2(d) < k {
      Pow2Monotone(Log2(d) + 1, k);
    } else if Log2(d) > k {
      Pow2Monotone(k + 1, Log2(d));
    }
  }

  /** The midpoint of the upper 2^m values below the largest step. */
  lemma TopMidpoint(oracle: Oracle, start: nat, d: nat, m: nat)
    requires 0 < m < TOP && Pow2(TOP) - Pow2(m) <= d < Pow2(TOP) && TrueUpTo(oracle, start, d)
    ensures var low, mid, high := start + Pow2(TOP) - Pow2(m), start + Pow2(TOP) - Pow2(m - 1), start + Pow2(TOP) - 1;
            Overflows(oracle, low, high) <==>
              start >= Pow2(m - 1) || (d >= Pow2(TOP) - Pow2(m - 1) && Overflows(oracle, mid, high))
  {
    hide Pow2, Log2;
    Pow2Values(TOP);
    Pow2Values(m);
    Pow2Step(m - 1);
    var low, high := start + Pow2(TOP) - Pow2(m), start + Pow2(TOP) - 1;
    var mid := (low + high + 1) / 2;
    assert mid == start + Pow2(TOP) - Pow2(m - 1);
    assert oracle(mid) == if d >= Pow2(TOP) - Pow2(m - 1) then Yes else No;
    if start < Pow2(m - 1) {
      SmallNeverOverflows(oracle, low, mid - 1);
    }
  }

  /** As long as every midpoint existed: 2^m values are left and none has overflowed yet. */
  lemma {:induction false} TopBisectOverflowsIff(oracle: Oracle, start: nat, d: nat, m: nat)
    requires m < TOP && start < Pow2(m) && Pow2(TOP) - Pow2(m) <= d < Pow2(TOP)
    requires TrueUpTo(oracle, start, d)
    ensures Overflows(oracle, start + Pow2(TOP) - Pow2(m), start + Pow2(TOP) - 1) <==>
              start > 0 && d >= Pow2(TOP) - 2 * Pow2(Log2(start))
  {
    if m == 0 {
      assert Pow2(0) == 1;
    } else {
      hide Pow2, Log2, Overflows, TrueUpTo;
      Pow2Step(m - 1);
      TopMidpoint(oracle, start, d, m);
      if start >= Pow2(m - 1) {
        Log2Is(start, m - 1);
      } else if d >= Pow2(TOP) - Pow2(m - 1) {
        TopBisectOverflowsIff(oracle, start, d, m - 1);
      } else if start > 0 {
        SmallLog2(start, m - 1);
      }
    }
  }

  lemma SmallLog2(d: nat, k: nat)
    requires 0 < d < Pow2(k)
    ensures 2 * Pow2(Log2(d)) <= Pow2(k)
  {
    hide Pow2, Log2;
    Pow2Step(Log2(d));
    if Log2(d) >= k {
      Pow2Monotone(k, Log2(d));
    } else {
      Pow2Monotone(Log2(d) + 1, k);
    }
  }

  /** On an oracle true exactly on [start, start + d], the search overflows exactly when d comes
      within twice the leading power of two of `start` below 2^62; from 0 it never does. */
  lemma OverflowsIff(oracle: Oracle, start: nat, d: nat)
    requires start < Pow2(60) && TrueUpTo(oracle, start, d)
    ensures ProbeOverflows(oracle, start) <==>
              start > 0 && Pow2(TOP) - 2 * Pow2(Log2(start)) <= d < Pow2(TOP)
  {
    hide Pow2, Log2, Overflows;
    Pow2Step(60);
    Pow2Step(TOP - 1);
    if start > 0 { SmallLog2(start, 60); }
    if Pow2(TOP - 1) <= d < Pow2(TOP) {
      forall k: nat | k < TOP
        ensures oracle(start + Pow2(k)) == Yes
      {
        Pow2Monotone(k, TOP - 1);
      }
      TopBisectOverflowsIff(oracle, start, d, TOP - 1);
    } else {
      assert oracle(start + Pow2(TOP)) == No ==> oracle(start + Pow2(TOP - 1)) != Yes;
    }
  }
}
