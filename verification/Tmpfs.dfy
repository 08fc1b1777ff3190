/** The /tmp resizer: a grow-only controller with a hysteresis band, driven by memory readings. */
module Tmpfs {
  import opened Options

  const MIB: nat := 0x10_0000
  const CAP: nat := 512 * MIB
  const FLOOR: nat := 256 * MIB
  const MARGIN: nat := 64 * MIB
  const UINT64: nat := 0x1_0000_0000_0000_0000

  /** computeTmpSizeBytes in uint64 arithmetic, which wraps. */
  function SizeBytes(totalKB: nat): (r: nat)
    ensures totalKB == 0 <==> r == 0
    ensures totalKB > 0 ==> FLOOR <= r <= CAP && r % MIB == 0
  {
    if totalKB == 0 then 0
    else
      var totalBytes := totalKB * 1024 % UINT64;
      var target := (totalBytes * 50 % UINT64) / 100;
      var capped := if target > CAP then CAP else target;
      var floored := if capped < FLOOR then FLOOR else capped;
      RoundDown(floored)
  }

  function RoundDown(n: nat): (r: nat)
    ensures r % MIB == 0 && r <= n < r + MIB
  {
    (n / MIB) * MIB
  }

  /** The first total, in KiB, at which the percentage overflows. */
  const WRAPS: nat := UINT64 / (50 * 1024) + 1

  /** `n` kept between the floor and the cap, in whole MiB. */
  predicate Clamped(n: nat, r: nat)
  {
    && r % MIB == 0
    && (n <= FLOOR ==> r == FLOOR) && (n >= CAP ==> r == CAP)
    && (FLOOR <= n <= CAP ==> r <= n < r + MIB)
  }

  /** Below the wrap-around, /tmp gets half the memory, clamped. */
  lemma SizeIsHalf(totalKB: nat)
    requires 0 < totalKB < WRAPS
    ensures Clamped(totalKB * 512, SizeBytes(totalKB))
  {
    NoWrap(totalKB);
    ClampHolds(totalKB * 512);
  }

  lemma NoWrap(totalKB: nat)
    requires 0 < totalKB < WRAPS
    ensures (totalKB * 1024 % UINT64 * 50 % UINT64) / 100 == totalKB * 512
  {
    var bytes := totalKB * 1024;
    assert bytes % UINT64 == bytes && bytes * 50 % UINT64 == bytes * 50;
  }

  lemma ClampHolds(n: nat)
    ensures Clamped(n, RoundDown(if n > CAP then CAP else if n < FLOOR then FLOOR else n))
  {
  }

  lemma ClampIsMonotone(m: nat, p: nat, n: nat, q: nat)
    requires m <= n && Clamped(m, p) && Clamped(n, q)
    ensures p <= q
  {
    assert p == MIB * (p / MIB) && q == MIB * (q / MIB);
  }

  lemma SizeIsMonotone(a: nat, b: nat)
    requires 0 < a <= b < WRAPS
    ensures SizeBytes(a) <= SizeBytes(b)
  {
    SizeIsHalf(a);
    SizeIsHalf(b);
    ClampIsMonotone(a * 512, SizeBytes(a), b * 512, SizeBytes(b));
  }

  ghost predicate MonotoneTo(n: nat)
  {
    forall a, b | 0 < a <= b <= n :: SizeBytes(a) <= SizeBytes(b)
  }

  /** More memory never means a smaller /tmp exactly as long as the percentage does not wrap round. */
  lemma MonotoneIff(n: nat)
    ensures MonotoneTo(n) <==> n < WRAPS
  {
    if n < WRAPS {
      forall a, b | 0 < a <= b <= n
        ensures SizeBytes(a) <= SizeBytes(b)
      {
        SizeIsMonotone(a, b);
      }
    } else {
      WrapsToFloor();
    }
  }

  /** 1 GiB of memory gets the cap; the first total that wraps gets the floor. */
  lemma WrapsToFloor()
    ensures SizeBytes(0x10_0000) == CAP && SizeBytes(WRAPS) == FLOOR
  {
    SizeIsHalf(0x10_0000);
    assert WRAPS * 1024 * 50 == UINT64 + 16384;
    ClampHolds(163);
  }

  /**
    What one tick observes: whether /tmp is a tmpfs, MemTotal (0 when it cannot be read), whether
    the cap can be read, and whether a remount, if one is issued, succeeds.
   */
  datatype Reading = Reading(isTmpfs: bool, totalKB: nat, statfs: bool, remount: bool)

  /** The size a tick asks for, if it asks. */
  function Request(cap: nat, r: Reading): Option<nat>
  {
    var target := SizeBytes(r.totalKB);
    var cur := if r.statfs then cap else 0;
    if !r.isTmpfs || target == 0 || target <= (cur + MARGIN) % UINT64 then None else Some(target)
  }

  predicate Remounts(cap: nat, r: Reading)
  {
    Request(cap, r).Some? && r.remount
  }

  function NextCap(cap: nat, r: Reading): nat
  {
    if Remounts(cap, r) then Request(cap, r).value else cap
  }

  class Tmp {
    var cap: nat

    method ResizeOnce(r: Reading) returns (failed: bool)
      modifies this
      ensures cap == NextCap(old(cap), r)
      ensures failed <==> Request(old(cap), r).Some? && !r.remount
    {
      if !r.isTmpfs {
        return false;
      }
      var target := SizeBytes(r.totalKB);
      if target == 0 {
        return false;
      }
      var cur := if r.statfs then cap else 0;
      if target <= (cur + MARGIN) % UINT64 {
        return false;
      }
      if !r.remount {
        return true;
      }
      cap := target;
      return false;
    }

    /** The ticker loop, for as many ticks as there are readings. */
    method Resizer(readings: seq<Reading>) returns (remounts: nat)
      modifies this
      ensures cap == Run(old(cap), readings) && remounts == Count(old(cap), readings)
    {
      remounts := 0;
      assert readings[0..] == readings;
      for i := 0 to |readings|
        invariant Run(old(cap), readings) == Run(cap, readings[i..])
        invariant Count(old(cap), readings) == remounts + Count(cap, readings[i..])
      {
        assert readings[i..][1..] == readings[i + 1..];
        remounts := remounts + if Remounts(cap, readings[i]) then 1 else 0;
        var failed := ResizeOnce(readings[i]);
      }
    }
  }

  function Run(cap: nat, readings: seq<Reading>): nat
    decreases |readings|
  {
    if readings == [] then cap else Run(NextCap(cap, readings[0]), readings[1..])
  }

  /** How many remounts succeed. */
  function Count(cap: nat, readings: seq<Reading>): nat
    decreases |readings|
  {
    if readings == [] then 0
    else (if Remounts(cap, readings[0]) then 1 else 0) + Count(NextCap(cap, readings[0]), readings[1..])
  }

  /** The cap is readable at every tick. */
  predicate Observed(readings: seq<Reading>)
  {
    forall i | 0 <= i < |readings| :: readings[i].statfs
  }

  /**
    A tick shrinks /tmp exactly when it can remount, memory asks for less than the cap, and the cap
    cannot be read or is so large that adding the margin wraps round to less than memory asks for.
   */
  lemma ShrinksIff(cap: nat, r: Reading)
    requires cap < UINT64
    ensures NextCap(cap, r) < cap
       <==> && r.isTmpfs && r.remount && r.totalKB > 0 && SizeBytes(r.totalKB) < cap
            && (r.statfs ==> UINT64 <= cap + MARGIN < UINT64 + SizeBytes(r.totalKB))
  {
  }

  lemma StepGrows(cap: nat, r: Reading)
    requires r.statfs && cap + MARGIN < UINT64
    ensures cap <= NextCap(cap, r) <= if cap > CAP then cap else CAP
    ensures Remounts(cap, r) ==> cap + MARGIN < NextCap(cap, r)
  {
  }

  /** How many remounts can still succeed. */
  function Budget(cap: nat): nat
  {
    if cap >= 448 * MIB then 0
    else if cap >= 383 * MIB then 1
    else if cap >= 318 * MIB then 2
    else if cap >= 253 * MIB then 3
    else 4
  }

  lemma StepSpends(cap: nat, r: Reading)
    requires r.statfs && cap + MARGIN < UINT64 && Remounts(cap, r)
    ensures Budget(NextCap(cap, r)) < Budget(cap)
  {
  }

  /** Over any readings: the cap never shrinks or passes max(initial, 512 MiB), and at most four remounts succeed. */
  lemma {:induction false} RunIsBounded(cap: nat, readings: seq<Reading>)
    requires Observed(readings) && cap + MARGIN < UINT64
    ensures cap <= Run(cap, readings) <= if cap > CAP then cap else CAP
    ensures Count(cap, readings) <= Budget(cap) <= 4
    decreases |readings|
  {
    if readings != [] {
      StepGrows(cap, readings[0]);
      if Remounts(cap, readings[0]) {
        StepSpends(cap, readings[0]);
      }
      RunIsBounded(NextCap(cap, readings[0]), readings[1..]);
    }
  }

  function Tick(mib: nat): Reading
  {
    Reading(true, 2 * mib * 1024, true, true)
  }

  lemma TickAsks(mib: nat)
    requires 256 <= mib <= 512
    ensures SizeBytes(2 * mib * 1024) == mib * MIB
  {
    assert 2 * mib * 1024 * 1024 == 2 * mib * MIB;
    assert 2 * mib * MIB * 50 == 100 * (mib * MIB);
  }

  lemma TickCounts(cap: nat, mib: nat, rest: seq<Reading>)
    requires 256 <= mib <= 512 && cap + MARGIN < mib * MIB
    ensures Count(cap, [Tick(mib)] + rest) == 1 + Count(mib * MIB, rest)
  {
    TickAsks(mib);
    assert ([Tick(mib)] + rest)[1..] == rest;
  }

  /** Four is reached: memory that grows by 130 MiB between ticks. */
  lemma FourIsTight()
    ensures Count(0, [Tick(256)] + ([Tick(321)] + ([Tick(386)] + ([Tick(451)] + [])))) == 4
  {
    TickCounts(386 * MIB, 451, []);
    TickCounts(321 * MIB, 386, [Tick(451)] + []);
    TickCounts(256 * MIB, 321, [Tick(386)] + ([Tick(451)] + []));
    TickCounts(0, 256, [Tick(321)] + ([Tick(386)] + ([Tick(451)] + [])));
  }

  /** The same reading twice remounts at most once. */
  lemma Settles(cap: nat, r: Reading)
    requires r.statfs && cap + MARGIN < UINT64
    ensures !Remounts(NextCap(cap, r), r) || !Remounts(cap, r)
    ensures r.remount ==> NextCap(NextCap(cap, r), r) == NextCap(cap, r)
  {
  }
}
