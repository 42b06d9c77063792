/** The planner's step search: a gallop from a guess, then a bisection. */
module Search {

  /** The floor of the binary logarithm. */
  function Log2(n: nat): nat
    requires n > 0
  {
    if n == 1 then 0 else 1 + Log2(n / 2)
  }

  function Pow2(k: nat): (p: nat)
    ensures p > k
  {
    if k == 0 then 1 else 2 * Pow2(k - 1)
  }

  lemma {:induction false} ExponentBelowLog(k: nat, n: nat)
    requires Pow2(k) <= n
    ensures k <= Log2(n)
  {
    if k > 0 {
      ExponentBelowLog(k - 1, n / 2);
    }
  }

  /** An index that passed whose successor failed, inside [lo, hi] or just before it. */
  ghost predicate IsBoundary(fits: int -> bool, lo: int, hi: int, r: int) {
    && lo - 1 <= r <= hi
    && (lo <= r ==> fits(r))
    && (r < hi ==> !fits(r + 1))
  }

  ghost predicate DownwardClosed(fits: int -> bool, lo: int, hi: int) {
    forall i, j :: lo <= i <= j <= hi && fits(j) ==> fits(i)
  }

  function Clamp(guess: int, lo: int, hi: int): int {
    var atLeast := if guess < lo then lo else guess;
    if atLeast > hi then hi else atLeast
  }

  function Distance(a: int, b: int): nat {
    if a < b then b - a else a - b
  }

  /** What one search may cost: three questions and two per doubling of how far off its guess was. */
  function Questions(d: nat): nat {
    3 + 2 * Log2(d + 1)
  }

  /** The gallop upwards from a guess that fits. */
  method GallopUp(guess: int, hi: int, fits: int -> bool) returns (good: int, bad: int, ghost k: nat, ghost asked: seq<int>)
    requires guess <= hi && fits(guess)
    ensures guess <= good < bad <= hi + 1 && fits(good)
    ensures bad <= hi ==> !fits(bad)
    ensures bad - good <= Pow2(k) && guess + Pow2(k) - 1 <= good
    ensures bad > hi ==> bad - good == 1
    ensures forall q :: q in asked ==> guess <= q <= hi
    ensures |asked| <= k + 1
  {
    good, bad, k, asked := guess, hi + 1, 0, [];
    var step := 1;
    while good < hi
      invariant guess <= good <= hi && fits(good)
      invariant step == Pow2(k)
      invariant good < hi ==> good == guess + step - 1
      invariant good == hi ==> k == 0 || guess + Pow2(k - 1) - 1 <= good
      invariant forall q :: q in asked ==> guess <= q <= hi
      invariant |asked| == k
    {
      var next := if good + step < hi then good + step else hi;
      asked := asked + [next];
      if !fits(next) {
        return good, next, k, asked;
      }
      good := next;
      step := step * 2;
      k := k + 1;
    }
    if k > 0 {
      k := k - 1;
    }
  }

  /** The gallop downwards from a guess that does not fit, towards an index that does. */
  method GallopDown(floor: int, lo: int, guess: int, fits: int -> bool) returns (good: int, bad: int, ghost k: nat, ghost asked: seq<int>)
    requires lo - 1 <= floor < guess && (lo <= floor ==> fits(floor)) && !fits(guess)
    ensures floor <= good < bad <= guess && (lo <= good ==> fits(good)) && !fits(bad)
    ensures bad - good <= Pow2(k) && bad == guess - Pow2(k) + 1
    ensures forall q :: q in asked ==> floor < q < guess
    ensures |asked| <= k + 1
  {
    good, bad, k, asked := floor, guess, 0, [];
    var step := 1;
    while true
      invariant step == Pow2(k)
      invariant floor == good < bad == guess - step + 1 && !fits(bad)
      invariant forall q :: q in asked ==> floor < q < guess
      invariant |asked| == k
      decreases bad - floor
    {
      var next := bad - step;
      if next <= good {
        break;
      }
      asked := asked + [next];
      if fits(next) {
        good := next;
        break;
      }
      bad := next;
      step := step * 2;
      k := k + 1;
    }
  }

  /** The bisection of a bracket. */
  method Bisect(from: int, to: int, lo: int, hi: int, fits: int -> bool, ghost k: nat) returns (good: int, ghost asked: seq<int>)
    requires lo - 1 <= from < to <= hi + 1
    requires (lo <= from ==> fits(from)) && (to <= hi ==> !fits(to))
    requires to - from <= Pow2(k)
    ensures from <= good < to && IsBoundary(fits, lo, hi, good)
    ensures forall q :: q in asked ==> from < q < to
    ensures |asked| <= k
  {
    var bad := to;
    good, asked := from, [];
    ghost var left := k;
    while bad - good > 1
      invariant from <= good < bad <= to
      invariant (lo <= good ==> fits(good)) && (bad <= hi ==> !fits(bad))
      invariant bad - good <= Pow2(left) && |asked| + left <= k
      invariant forall q :: q in asked ==> from < q < to
    {
      var mid := good + (bad - good) / 2;
      asked := asked + [mid];
      if fits(mid) {
        good := mid;
      } else {
        bad := mid;
      }
      left := left - 1;
    }
  }

  /** The furthest index of [lo, hi] that fits, asked from a guess.
      `asked` is the history of questions, in order. */
  method Furthest(lo: int, hi: int, guess: int, fits: int -> bool) returns (r: int, ghost asked: seq<int>)
    ensures hi < lo ==> r == lo - 1 && asked == []
    ensures lo <= hi ==> IsBoundary(fits, lo, hi, r)
    ensures lo <= hi && DownwardClosed(fits, lo, hi) ==> forall i :: lo <= i <= hi && fits(i) ==> i <= r
    ensures forall q :: q in asked ==> lo <= q <= hi
    ensures lo <= hi ==> |asked| <= Questions(Distance(Clamp(guess, lo, hi), r))
    ensures lo <= hi && !fits(lo) && !fits(Clamp(guess, lo, hi)) ==> r == lo - 1 && |asked| <= 2
  {
    hide DownwardClosed, Log2, Pow2;
    if hi < lo {
      return lo - 1, [];
    }
    var start := Clamp(guess, lo, hi);
    asked := [start];
    var good, bad;
    ghost var k, more;
    if fits(start) {
      good, bad, k, more := GallopUp(start, hi, fits);
      asked := asked + more;
      if bad > hi {
        BoundaryIsFurthest(fits, lo, hi, good);
        ExponentBelowLog(k, Distance(start, good) + 1);
        return good, asked;
      }
    } else {
      var floor := lo - 1;
      if start > lo {
        asked := asked + [lo];
        if !fits(lo) {
          BoundaryIsFurthest(fits, lo, hi, lo - 1);
          return lo - 1, asked;
        }
        floor := lo;
      }
      good, bad, k, more := GallopDown(floor, lo, start, fits);
      asked := asked + more;
    }
    r, more := Bisect(good, bad, lo, hi, fits, k);
    asked := asked + more;
    BoundaryIsFurthest(fits, lo, hi, r);
    ExponentBelowLog(k, Distance(start, r) + 1);
  }

  /** Under a predicate that once false stays false, the boundary is the maximum, so it is unique. */
  lemma BoundaryIsFurthest(fits: int -> bool, lo: int, hi: int, r: int)
    requires lo <= hi && IsBoundary(fits, lo, hi, r)
    ensures DownwardClosed(fits, lo, hi) ==> forall i :: lo <= i <= hi && fits(i) ==> i <= r
  {
    if i :| lo <= i <= hi && fits(i) && DownwardClosed(fits, lo, hi) {
      // Past the boundary, i would put r + 1 below an index that fits.
      assert i <= r + 1;
    }
  }
}
