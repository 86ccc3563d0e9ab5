/** The ray/AABB slab test of holy-engine-base (intersectRayAABB, after
    Williams et al., "An Efficient and Robust Ray-Box Intersection
    Algorithm"). `SlabFrom` is the specification: the running interval
    [tMin, tMax] after the first k axes; `IntersectRayAabb` is the loop. */
module Slab {
  import opened Vectors

  /** Below this magnitude a direction component counts as parallel to its slab. */
  const ParallelEpsilon: real := 0.000001

  /** The upper end of the running interval; it starts at +Inf. */
  datatype Bound = Infinite | Finite(t: real)

  /** The running interval, or the miss the loop returns at once. */
  datatype SlabState = Open(tMin: real, tMax: Bound) | Miss

  function Abs(r: real): real { if r < 0.0 then -r else r }
  function Max(a: real, b: real): real { if a >= b then a else b }
  function Min(a: real, b: real): real { if a <= b then a else b }

  predicate Parallel(d: real) { Abs(d) < ParallelEpsilon }

  /** Entry and exit parameters of one slab, swapped so that entry <= exit. */
  function Entry(o: real, d: real, lo: real, hi: real): real
    requires d != 0.0
  {
    Min((lo - o) / d, (hi - o) / d)
  }

  function Exit(o: real, d: real, lo: real, hi: real): real
    requires d != 0.0
  {
    Max((lo - o) / d, (hi - o) / d)
  }

  /** One turn of the loop on an open interval. */
  function AxisStep(tMin: real, tMax: Bound, o: real, d: real, lo: real, hi: real): SlabState {
    if Parallel(d) then
      if o < lo || o > hi then Miss else Open(tMin, tMax)
    else
      var t1 := Max(tMin, Entry(o, d, lo, hi));
      var t2 := if tMax.Infinite? then Exit(o, d, lo, hi) else Min(tMax.t, Exit(o, d, lo, hi));
      if t1 > t2 then Miss else Open(t1, Finite(t2))
  }

  /** The state after the axes 0 .. k-1. */
  function SlabFrom(k: nat, o: Vec3, d: Vec3, bmin: Vec3, bmax: Vec3): SlabState
    requires k <= 3
  {
    if k == 0 then Open(0.0, Infinite)
    else match SlabFrom(k - 1, o, d, bmin, bmax)
      case Miss => Miss
      case Open(tMin, tMax) => AxisStep(tMin, tMax, o.At(k - 1), d.At(k - 1), bmin.At(k - 1), bmax.At(k - 1))
  }

  /** What intersectRayAABB returns: (hit, distance), (false, 0) on a miss. */
  function Intersect(o: Vec3, d: Vec3, bmin: Vec3, bmax: Vec3): (bool, real) {
    match SlabFrom(3, o, d, bmin, bmax)
    case Miss => (false, 0.0)
    case Open(tMin, _) => (true, tMin)
  }

  /** The point at parameter t lies between the two planes of axis i. */
  predicate WithinSlab(o: Vec3, d: Vec3, bmin: Vec3, bmax: Vec3, i: nat, t: real)
    requires i < 3
  {
    Min(bmin.At(i), bmax.At(i)) <= o.At(i) + t * d.At(i) <= Max(bmin.At(i), bmax.At(i))
  }

  predicate Inside(o: Vec3, bmin: Vec3, bmax: Vec3) {
    forall i :: 0 <= i < 3 ==> bmin.At(i) <= o.At(i) <= bmax.At(i)
  }

  /** The ray meets the box at parameter t >= 0: on each parallel axis the
      origin lies in the slab, and on each other axis the point at t does. */
  predicate Reaches(o: Vec3, d: Vec3, bmin: Vec3, bmax: Vec3, t: real) {
    t >= 0.0 &&
    forall i :: 0 <= i < 3 ==>
      if Parallel(d.At(i)) then bmin.At(i) <= o.At(i) <= bmax.At(i) else WithinSlab(o, d, bmin, bmax, i, t)
  }

  method IntersectRayAabb(origin: Vec3, dir: Vec3, boxMin: Vec3, boxMax: Vec3) returns (hit: bool, t: real)
    ensures (hit, t) == Intersect(origin, dir, boxMin, boxMax)
    ensures hit ==> t >= 0.0
    ensures hit ==> forall i :: 0 <= i < 3 && !Parallel(dir.At(i)) ==> WithinSlab(origin, dir, boxMin, boxMax, i, t)
    ensures (exists i :: 0 <= i < 3 && Parallel(dir.At(i)) &&
              (origin.At(i) < boxMin.At(i) || origin.At(i) > boxMax.At(i))) ==> !hit
    ensures Inside(origin, boxMin, boxMax) ==> hit && t == 0.0
    ensures !hit ==> t == 0.0
    // a hit is a point where the ray meets the box, and the nearest one
    ensures hit ==> Reaches(origin, dir, boxMin, boxMax, t)
    ensures forall t0 :: Reaches(origin, dir, boxMin, boxMax, t0) ==> hit && t <= t0
  {
    var tMin := 0.0;
    var tMax := Infinite;
    var missed := false;
    var i := 0;
    // the Go loop returns (false, 0) at once; here the miss leaves the loop
    while i < 3 && !missed
      invariant 0 <= i <= 3
      invariant SlabFrom(i, origin, dir, boxMin, boxMax) == if missed then Miss else Open(tMin, tMax)
    {
      var o, d, lo, hi := origin.At(i), dir.At(i), boxMin.At(i), boxMax.At(i);
      if Abs(d) < ParallelEpsilon {
        if o < lo || o > hi {
          missed := true;
        }
      } else {
        var t1 := (lo - o) / d;
        var t2 := (hi - o) / d;
        if t1 > t2 {
          t1, t2 := t2, t1;
        }
        tMin := Max(tMin, t1);
        tMax := if tMax.Infinite? then Finite(t2) else Finite(Min(tMax.t, t2));
        if tMin > tMax.t {
          missed := true;
        }
      }
      i := i + 1;
    }
    if missed {
      MissStays(i, 3, origin, dir, boxMin, boxMax);
      hit, t := false, 0.0;
    } else {
      hit, t := true, tMin;
    }
    HitProperties(origin, dir, boxMin, boxMax);
    ParallelOutsideMisses(origin, dir, boxMin, boxMax);
    InsideHitsAtZero(origin, dir, boxMin, boxMax);
    HitReaches(origin, dir, boxMin, boxMax);
    forall t0 | Reaches(origin, dir, boxMin, boxMax, t0)
      ensures hit && t <= t0
    {
      ReachedHits(origin, dir, boxMin, boxMax, t0);
    }
  }

  /** Once the loop has missed, it has missed for good. */
  lemma MissStays(k: nat, j: nat, o: Vec3, d: Vec3, bmin: Vec3, bmax: Vec3)
    requires k <= j <= 3 && SlabFrom(k, o, d, bmin, bmax) == Miss
    ensures SlabFrom(j, o, d, bmin, bmax) == Miss
    decreases j - k
  {
    if k < j {
      MissStays(k + 1, j, o, d, bmin, bmax);
    }
  }

  /** Dividing by a positive d preserves order: x/d <= t exactly when x <= t*d. */
  lemma DivLeIff(x: real, d: real, t: real)
    requires d > 0.0
    ensures x / d <= t <==> x <= t * d
    ensures t <= x / d <==> t * d <= x
  {
    var q := x / d;
    assert q * d == x;
    assert (t - q) * d == t * d - x;
    if q <= t {
      assert (t - q) * d >= 0.0;
    } else {
      assert (q - t) * d > 0.0;
    }
  }

  /** The same for a negative d, where the order flips. */
  lemma DivLeIffNeg(x: real, d: real, t: real)
    requires d < 0.0
    ensures x / d <= t <==> t * d <= x
    ensures t <= x / d <==> x <= t * d
  {
    assert x / d == (-x) / (-d);
    DivLeIff(-x, -d, t);
  }

  /** A parameter t lies in [entry, exit] of a non-parallel slab exactly
      when the point at t lies between the slab's two planes. */
  lemma ScaleBack(o: real, d: real, lo: real, hi: real, t: real)
    requires d != 0.0
    ensures Entry(o, d, lo, hi) <= t <= Exit(o, d, lo, hi) <==> Min(lo, hi) <= o + t * d <= Max(lo, hi)
  {
    if d > 0.0 {
      DivLeIff(lo - o, d, t);
      DivLeIff(hi - o, d, t);
    } else {
      DivLeIffNeg(lo - o, d, t);
      DivLeIffNeg(hi - o, d, t);
    }
  }

  /** While open, the interval is non-empty, starts at or after 0, and lies
      inside [entry, exit] of every non-parallel axis already visited. */
  lemma {:induction false} OpenBounds(k: nat, o: Vec3, d: Vec3, bmin: Vec3, bmax: Vec3)
    requires k <= 3 && SlabFrom(k, o, d, bmin, bmax).Open?
    ensures var s := SlabFrom(k, o, d, bmin, bmax);
      s.tMin >= 0.0 && (s.tMax.Finite? ==> s.tMin <= s.tMax.t) &&
      forall j :: 0 <= j < k && !Parallel(d.At(j)) ==>
        s.tMax.Finite? &&
        Entry(o.At(j), d.At(j), bmin.At(j), bmax.At(j)) <= s.tMin &&
        s.tMax.t <= Exit(o.At(j), d.At(j), bmin.At(j), bmax.At(j))
  {
    if k > 0 {
      OpenBounds(k - 1, o, d, bmin, bmax);
    }
  }

  lemma HitProperties(o: Vec3, d: Vec3, bmin: Vec3, bmax: Vec3)
    ensures var (hit, t) := Intersect(o, d, bmin, bmax);
      hit ==> t >= 0.0 && forall i :: 0 <= i < 3 && !Parallel(d.At(i)) ==> WithinSlab(o, d, bmin, bmax, i, t)
  {
    if SlabFrom(3, o, d, bmin, bmax).Open? {
      OpenBounds(3, o, d, bmin, bmax);
      forall i | 0 <= i < 3 && !Parallel(d.At(i))
        ensures WithinSlab(o, d, bmin, bmax, i, SlabFrom(3, o, d, bmin, bmax).tMin)
      {
        HitAxis(o, d, bmin, bmax, i);
      }
    }
  }

  /** On one non-parallel axis, the hit distance lies in that axis's slab. */
  lemma HitAxis(o: Vec3, d: Vec3, bmin: Vec3, bmax: Vec3, i: nat)
    requires i < 3 && !Parallel(d.At(i)) && SlabFrom(3, o, d, bmin, bmax).Open?
    ensures WithinSlab(o, d, bmin, bmax, i, SlabFrom(3, o, d, bmin, bmax).tMin)
  {
    OpenAxis(3, i, o, d, bmin, bmax);
    SlabPoint(o, d, bmin, bmax, i, SlabFrom(3, o, d, bmin, bmax).tMin);
  }

  /** A parameter between axis i's entry and exit gives a point between its planes. */
  lemma SlabPoint(o: Vec3, d: Vec3, bmin: Vec3, bmax: Vec3, i: nat, t: real)
    requires i < 3 && d.At(i) != 0.0
    requires Entry(o.At(i), d.At(i), bmin.At(i), bmax.At(i)) <= t <= Exit(o.At(i), d.At(i), bmin.At(i), bmax.At(i))
    ensures WithinSlab(o, d, bmin, bmax, i, t)
  {
    ScaleBack(o.At(i), d.At(i), bmin.At(i), bmax.At(i), t);
  }

  /** Once axis j is visited, the open interval starts at or after j's entry. */
  lemma {:induction false} OpenAxis(k: nat, j: nat, o: Vec3, d: Vec3, bmin: Vec3, bmax: Vec3)
    requires j < k <= 3 && !Parallel(d.At(j)) && SlabFrom(k, o, d, bmin, bmax).Open?
    ensures var s := SlabFrom(k, o, d, bmin, bmax);
      s.tMax.Finite? && Entry(o.At(j), d.At(j), bmin.At(j), bmax.At(j)) <= s.tMin <= s.tMax.t &&
      s.tMax.t <= Exit(o.At(j), d.At(j), bmin.At(j), bmax.At(j))
  {
    if j < k - 1 {
      OpenAxis(k - 1, j, o, d, bmin, bmax);
    }
  }

  lemma ParallelOutsideMisses(o: Vec3, d: Vec3, bmin: Vec3, bmax: Vec3)
    ensures (exists i :: 0 <= i < 3 && Parallel(d.At(i)) && (o.At(i) < bmin.At(i) || o.At(i) > bmax.At(i))) ==>
      !Intersect(o, d, bmin, bmax).0
  {
    if i :| 0 <= i < 3 && Parallel(d.At(i)) && (o.At(i) < bmin.At(i) || o.At(i) > bmax.At(i)) {
      assert SlabFrom(i + 1, o, d, bmin, bmax) == Miss;
      MissStays(i + 1, 3, o, d, bmin, bmax);
    }
  }

  /** An origin inside the box keeps the interval open with tMin = 0. */
  lemma {:induction false} InsideOpen(k: nat, o: Vec3, d: Vec3, bmin: Vec3, bmax: Vec3)
    requires k <= 3 && Inside(o, bmin, bmax)
    ensures var s := SlabFrom(k, o, d, bmin, bmax);
      s.Open? && s.tMin == 0.0 && (s.tMax.Finite? ==> s.tMax.t >= 0.0)
  {
    if k > 0 {
      InsideOpen(k - 1, o, d, bmin, bmax);
      var i := k - 1;
      var oi, di, lo, hi := o.At(i), d.At(i), bmin.At(i), bmax.At(i);
      assert lo <= oi <= hi;
      if !Parallel(di) {
        var a, b := (lo - oi) / di, (hi - oi) / di;
        if di > 0.0 {
          assert a <= 0.0 <= b;
        } else {
          assert b <= 0.0 <= a;
        }
      }
    }
  }

  lemma InsideHitsAtZero(o: Vec3, d: Vec3, bmin: Vec3, bmax: Vec3)
    ensures Inside(o, bmin, bmax) ==> Intersect(o, d, bmin, bmax) == (true, 0.0)
  {
    if Inside(o, bmin, bmax) {
      InsideOpen(3, o, d, bmin, bmax);
    }
  }

  /** A hit distance is a parameter at which the ray meets the box. */
  lemma HitReaches(o: Vec3, d: Vec3, bmin: Vec3, bmax: Vec3)
    ensures Intersect(o, d, bmin, bmax).0 ==> Reaches(o, d, bmin, bmax, Intersect(o, d, bmin, bmax).1)
  {
    HitProperties(o, d, bmin, bmax);
    ParallelOutsideMisses(o, d, bmin, bmax);
  }

  /** One axis keeps a parameter the ray reaches inside the running interval. */
  lemma AxisStepKeeps(tMin: real, tMax: Bound, o: real, d: real, lo: real, hi: real, t0: real)
    requires tMin <= t0 && (tMax.Finite? ==> t0 <= tMax.t)
    requires Parallel(d) ==> lo <= o <= hi
    requires !Parallel(d) ==> Min(lo, hi) <= o + t0 * d <= Max(lo, hi)
    ensures var s := AxisStep(tMin, tMax, o, d, lo, hi);
      s.Open? && s.tMin <= t0 && (s.tMax.Finite? ==> t0 <= s.tMax.t)
  {
    if !Parallel(d) {
      ScaleBack(o, d, lo, hi, t0);
    }
  }

  /** If the ray meets the box at t0, the running interval after any number
      of axes is open and contains t0. */
  lemma {:induction false} ReachedOpen(k: nat, o: Vec3, d: Vec3, bmin: Vec3, bmax: Vec3, t0: real)
    requires k <= 3 && Reaches(o, d, bmin, bmax, t0)
    ensures var s := SlabFrom(k, o, d, bmin, bmax);
      s.Open? && s.tMin <= t0 && (s.tMax.Finite? ==> t0 <= s.tMax.t)
  {
    if k > 0 {
      ReachedOpen(k - 1, o, d, bmin, bmax, t0);
      var i := k - 1;
      var s := SlabFrom(i, o, d, bmin, bmax);
      assert Parallel(d.At(i)) ==> bmin.At(i) <= o.At(i) <= bmax.At(i);
      assert !Parallel(d.At(i)) ==> WithinSlab(o, d, bmin, bmax, i, t0);
      AxisStepKeeps(s.tMin, s.tMax, o.At(i), d.At(i), bmin.At(i), bmax.At(i), t0);
    }
  }

  /** Completeness: a ray that meets the box at t0 is reported as a hit, at
      a distance no greater than t0. */
  lemma ReachedHits(o: Vec3, d: Vec3, bmin: Vec3, bmax: Vec3, t0: real)
    requires Reaches(o, d, bmin, bmax, t0)
    ensures Intersect(o, d, bmin, bmax).0 && Intersect(o, d, bmin, bmax).1 <= t0
  {
    ReachedOpen(3, o, d, bmin, bmax, t0);
  }

  /** The box with the two planes of axis i exchanged. */
  function SwapAxis(bmin: Vec3, bmax: Vec3, i: nat): (Vec3, Vec3)
    requires i < 3
  {
    (bmin.With(i, bmax.At(i)), bmax.With(i, bmin.At(i)))
  }

  /** On a non-parallel axis the swap of t1 and t2 makes an inverted box
      (min > max on that axis) behave exactly like the corrected box. */
  lemma InvertedAxisLikeCorrected(o: Vec3, d: Vec3, bmin: Vec3, bmax: Vec3, i: nat)
    requires i < 3 && !Parallel(d.At(i))
    ensures var (cmin, cmax) := SwapAxis(bmin, bmax, i);
      Intersect(o, d, bmin, bmax) == Intersect(o, d, cmin, cmax)
  {
    var (cmin, cmax) := SwapAxis(bmin, bmax, i);
    SameStates(3, o, d, bmin, bmax, i);
  }

  lemma {:induction false} SameStates(k: nat, o: Vec3, d: Vec3, bmin: Vec3, bmax: Vec3, i: nat)
    requires k <= 3 && i < 3 && !Parallel(d.At(i))
    ensures var (cmin, cmax) := SwapAxis(bmin, bmax, i);
      SlabFrom(k, o, d, bmin, bmax) == SlabFrom(k, o, d, cmin, cmax)
  {
    var (cmin, cmax) := SwapAxis(bmin, bmax, i);
    if k > 0 {
      SameStates(k - 1, o, d, bmin, bmax, i);
      var j := k - 1;
      if j == i {
        assert cmin.At(j) == bmax.At(j) && cmax.At(j) == bmin.At(j);
      } else {
        assert cmin.At(j) == bmin.At(j) && cmax.At(j) == bmax.At(j);
      }
    }
  }

  /** On an axis where the direction is parallel, an inverted box always
      misses: the origin is below min or above max whatever it is. */
  lemma InvertedParallelMisses(o: Vec3, d: Vec3, bmin: Vec3, bmax: Vec3, i: nat)
    requires i < 3 && Parallel(d.At(i)) && bmin.At(i) > bmax.At(i)
    ensures Intersect(o, d, bmin, bmax) == (false, 0.0)
  {
    ParallelOutsideMisses(o, d, bmin, bmax);
    assert o.At(i) < bmin.At(i) || o.At(i) > bmax.At(i);
  }

  /** The picking scenario: camera at the origin looking down -Z, a unit box
      centred at (0, 0, -5); the ray enters at distance 4.5. */
  lemma CentreRayScenario()
    ensures Intersect(Zero, Vec3(0.0, 0.0, -1.0), Vec3(-0.5, -0.5, -5.5), Vec3(0.5, 0.5, -4.5)) == (true, 4.5)
  {
    var o, d, bmin, bmax := Zero, Vec3(0.0, 0.0, -1.0), Vec3(-0.5, -0.5, -5.5), Vec3(0.5, 0.5, -4.5);
    assert SlabFrom(2, o, d, bmin, bmax) == Open(0.0, Infinite);
    assert SlabFrom(3, o, d, bmin, bmax) == Open(4.5, Finite(5.5));
  }
}
