/**
 * The fairness measures of a finished schedule: the max-minus-min spread of
 * a set of totals, `calculate_shift_stats` (shift and weekend-shift counts
 * kept in defaultdicts), the population variance of the gaps between a
 * doctor's day-of-month values, and the stage-2 total that adds them up.
 */
module Fairness {
  import opened Wrappers
  import opened Errors
  import opened Calendar
  import opened Rota

  /** `max(values)`. */
  function MaxOf(xs: seq<int>): (m: int)
    requires |xs| > 0
    ensures m in xs && forall i :: 0 <= i < |xs| ==> xs[i] <= m
  {
    if |xs| == 1 then xs[0]
    else
      var rest := MaxOf(xs[..|xs| - 1]);
      if xs[|xs| - 1] > rest then xs[|xs| - 1] else rest
  }

  /** `min(values)`. */
  function MinOf(xs: seq<int>): (m: int)
    requires |xs| > 0
    ensures m in xs && forall i :: 0 <= i < |xs| ==> m <= xs[i]
  {
    if |xs| == 1 then xs[0]
    else
      var rest := MinOf(xs[..|xs| - 1]);
      if xs[|xs| - 1] < rest then xs[|xs| - 1] else rest
  }

  /** `max(values) - min(values)`: the widest gap between two totals. */
  function Spread(xs: seq<int>): (r: int)
    requires |xs| > 0
  {
    MaxOf(xs) - MinOf(xs)
  }

  /** The spread bounds every pairwise difference, is reached by one, and is 0 exactly when all totals agree. */
  lemma SpreadBounds(xs: seq<int>)
    requires |xs| > 0
    ensures Spread(xs) >= 0
    ensures forall i, j :: 0 <= i < |xs| && 0 <= j < |xs| ==> xs[i] - xs[j] <= Spread(xs)
    ensures exists i, j :: 0 <= i < |xs| && 0 <= j < |xs| && xs[i] - xs[j] == Spread(xs)
    ensures Spread(xs) == 0 <==> forall i :: 0 <= i < |xs| ==> xs[i] == xs[0]
  {
    var hi, lo := MaxOf(xs), MinOf(xs);
    var i :| 0 <= i < |xs| && xs[i] == hi;
    var j :| 0 <= j < |xs| && xs[j] == lo;
    assert xs[i] - xs[j] == Spread(xs);
  }

  /** The values of a dict, read in the order of `keys`. */
  function Column(keys: seq<string>, m: map<string, int>): (col: seq<int>)
    requires forall k :: k in keys ==> k in m
    ensures |col| == |keys| && forall i :: 0 <= i < |keys| ==> col[i] == m[keys[i]]
  {
    seq(|keys|, i requires 0 <= i < |keys| => m[keys[i]])
  }

  /** The column's maximum and minimum are the values of two of its keys and bound all the others. */
  lemma ColumnRange(keys: seq<string>, m: map<string, int>) returns (top: string, bottom: string)
    requires |keys| > 0 && forall k :: k in keys ==> k in m
    ensures top in keys && m[top] == MaxOf(Column(keys, m))
    ensures bottom in keys && m[bottom] == MinOf(Column(keys, m))
    ensures forall k :: k in keys ==> MinOf(Column(keys, m)) <= m[k] <= MaxOf(Column(keys, m))
  {
    var col := Column(keys, m);
    forall k | k in keys ensures MinOf(col) <= m[k] <= MaxOf(col) {
      var i :| 0 <= i < |keys| && keys[i] == k;
      assert col[i] == m[k];
    }
    var a :| 0 <= a < |col| && col[a] == MaxOf(col);
    var b :| 0 <= b < |col| && col[b] == MinOf(col);
    top, bottom := keys[a], keys[b];
  }

  /**
   * `max(m.values())` and `min(m.values())` do not depend on the order the
   * dict yields its keys in: two key lists naming the same doctors give the
   * same maximum, minimum and spread.
   */
  lemma ColumnOrderFree(keys1: seq<string>, keys2: seq<string>, m: map<string, int>)
    requires |keys1| > 0 && forall k :: k in keys1 ==> k in m
    requires forall k :: k in keys1 <==> k in keys2
    ensures |keys2| > 0 && forall k :: k in keys2 ==> k in m
    ensures MaxOf(Column(keys1, m)) == MaxOf(Column(keys2, m))
    ensures MinOf(Column(keys1, m)) == MinOf(Column(keys2, m))
    ensures Spread(Column(keys1, m)) == Spread(Column(keys2, m))
  {
    assert keys1[0] in keys2;
    var top1, bottom1 := ColumnRange(keys1, m);
    var top2, bottom2 := ColumnRange(keys2, m);
    assert top1 in keys2 && bottom1 in keys2 && top2 in keys1 && bottom2 in keys1;
  }

  /** Stage 1: the spread of `points` over the doctors, in half-points. */
  function PointSpread(c: Candidate, doctors: seq<string>): int
    requires |doctors| > 0 && forall d :: d in doctors ==> d in c.points
  {
    Spread(Column(doctors, c.points))
  }

  function PointsColumn(schedule: seq<Assignment>, doctors: seq<string>): seq<int> {
    seq(|doctors|, i requires 0 <= i < |doctors| => PointsOf(schedule, doctors[i]))
  }

  /** A doctor who holds no triple has 0 points. */
  lemma {:induction false} PointsOfAbsent(schedule: seq<Assignment>, doctor: string)
    requires forall a :: a in schedule ==> a.doctor != doctor
    ensures PointsOf(schedule, doctor) == 0
  {
    if schedule != [] {
      var prefix := schedule[..|schedule| - 1];
      assert forall a :: a in prefix ==> a in schedule;
      PointsOfAbsent(prefix, doctor);
    }
  }

  /**
   * The stage-1 spread is the spread of the summed weights over all doctors,
   * a doctor without a shift counting 0, and it is never negative.
   */
  lemma PointSpreadOfSchedule(c: Candidate, doctors: seq<string>)
    requires |doctors| > 0 && Tallied(c.points, c.schedule, doctors)
    ensures PointSpread(c, doctors) == Spread(PointsColumn(c.schedule, doctors))
    ensures PointSpread(c, doctors) >= 0
    ensures forall d :: d in doctors && (forall a :: a in c.schedule ==> a.doctor != d) ==> PointsOf(c.schedule, d) == 0
  {
    forall d | d in doctors && (forall a :: a in c.schedule ==> a.doctor != d)
      ensures PointsOf(c.schedule, d) == 0
    {
      PointsOfAbsent(c.schedule, d);
    }
    assert Column(doctors, c.points) == PointsColumn(c.schedule, doctors);
    SpreadBounds(Column(doctors, c.points));
  }

  // ---------------------------------------------------------------------
  // calculate_shift_stats

  /**
   * `day.strftime('%A') in ['Saturday', 'Sunday']`; a holiday is not a
   * weekend. Every day of a schedule is a real date; a triple holding
   * anything else is never counted as a weekend shift.
   */
  predicate IsWeekend(a: Assignment) {
    Valid(a.day) && (Weekday(a.day) == 5 || Weekday(a.day) == 6)
  }

  /** The triples that fall on a Saturday or a Sunday, in order. */
  function WeekendPart(schedule: seq<Assignment>): (w: seq<Assignment>)
    ensures |w| <= |schedule|
  {
    if schedule == [] then []
    else
      var last := schedule[|schedule| - 1];
      WeekendPart(schedule[..|schedule| - 1]) + (if IsWeekend(last) then [last] else [])
  }

  /** `WeekendPart` keeps exactly the weekend triples of the schedule. */
  lemma {:induction false} WeekendPartMembers(schedule: seq<Assignment>)
    ensures forall a :: a in WeekendPart(schedule) <==> a in schedule && IsWeekend(a)
  {
    if schedule != [] {
      var prefix := schedule[..|schedule| - 1];
      WeekendPartMembers(prefix);
      assert schedule == prefix + [schedule[|schedule| - 1]];
    }
  }

  lemma WeekendPartStep(schedule: seq<Assignment>, a: Assignment)
    ensures WeekendPart(schedule + [a]) == WeekendPart(schedule) + (if IsWeekend(a) then [a] else [])
  {
    assert (schedule + [a])[..|schedule|] == schedule;
  }

  /** How many triples a doctor holds. */
  function CountOf(schedule: seq<Assignment>, doctor: string): nat {
    if schedule == [] then 0
    else CountOf(schedule[..|schedule| - 1], doctor) + (if schedule[|schedule| - 1].doctor == doctor then 1 else 0)
  }

  lemma CountOfAppend(schedule: seq<Assignment>, a: Assignment, doctor: string)
    ensures CountOf(schedule + [a], doctor) == CountOf(schedule, doctor) + (if a.doctor == doctor then 1 else 0)
  {
    assert (schedule + [a])[..|schedule|] == schedule;
  }

  /** The doctors of a schedule, each once, in order of first appearance. */
  function Doctors(schedule: seq<Assignment>): (ds: seq<string>)
  {
    if schedule == [] then []
    else
      var rest := Doctors(schedule[..|schedule| - 1]);
      if schedule[|schedule| - 1].doctor in rest then rest else rest + [schedule[|schedule| - 1].doctor]
  }

  /** The first-appearance order lists each doctor with a shift exactly once, and no one else. */
  lemma {:induction false} DoctorsListed(schedule: seq<Assignment>)
    ensures NoDup(Doctors(schedule))
    ensures forall d :: d in Doctors(schedule) <==> CountOf(schedule, d) > 0
    ensures |Doctors(schedule)| == 0 <==> schedule == []
  {
    if schedule != [] {
      DoctorsListed(schedule[..|schedule| - 1]);
    }
  }

  /** A Python dict of counts: its keys in insertion order, and its entries. */
  datatype Tally = Tally(order: seq<string>, count: map<string, int>)

  /** `tally[key] += 1` on a defaultdict(int): a missing key is inserted at the end with 0 first. */
  function Bump(t: Tally, key: string): Tally {
    if key in t.count then Tally(t.order, t.count[key := t.count[key] + 1])
    else Tally(t.order + [key], t.count[key := 1])
  }

  /** The tally holds, in first-appearance order, how many triples each doctor of the schedule has. */
  ghost predicate Counts(t: Tally, schedule: seq<Assignment>) {
    && t.order == Doctors(schedule)
    && (forall d :: d in t.count <==> d in t.order)
    && (forall d :: d in t.count ==> t.count[d] == CountOf(schedule, d))
  }

  lemma CountsStep(t: Tally, schedule: seq<Assignment>, a: Assignment)
    requires Counts(t, schedule)
    ensures Counts(Bump(t, a.doctor), schedule + [a])
  {
    var longer := schedule + [a];
    assert longer[..|schedule|] == schedule;
    DoctorsListed(schedule);
  }

  lemma WeekendCountsStep(t: Tally, done: seq<Assignment>, a: Assignment)
    requires Counts(t, WeekendPart(done))
    ensures Counts(if IsWeekend(a) then Bump(t, a.doctor) else t, WeekendPart(done + [a]))
  {
    WeekendPartStep(done, a);
    if IsWeekend(a) {
      CountsStep(t, WeekendPart(done), a);
    } else {
      assert WeekendPart(done + [a]) == WeekendPart(done) + [];
      assert WeekendPart(done) + [] == WeekendPart(done);
    }
  }

  /**
   * `calculate_shift_stats(schedule)`: shift counts per doctor, and weekend
   * counts per doctor who has a Saturday or Sunday shift. A doctor without
   * such a shift has no key at all, as with any defaultdict never touched.
   */
  method ShiftStats(schedule: seq<Assignment>) returns (shifts: Tally, weekend: Tally)
    ensures Counts(shifts, schedule)
    ensures Counts(weekend, WeekendPart(schedule))
  {
    shifts := Tally([], map[]);
    weekend := Tally([], map[]);
    ghost var done: seq<Assignment> := [];
    for i := 0 to |schedule|
      invariant done == schedule[..i]
      invariant Counts(shifts, done)
      invariant Counts(weekend, WeekendPart(done))
    {
      var a := schedule[i];
      CountsStep(shifts, done, a);
      WeekendCountsStep(weekend, done, a);
      shifts := Bump(shifts, a.doctor);
      if IsWeekend(a) {
        weekend := Bump(weekend, a.doctor);
      }
      done := done + [a];
      assert done == schedule[..i + 1];
    }
    assert done == schedule;
  }

  /** Whether the doctor holds a triple of the schedule that falls on a Saturday or Sunday. */
  predicate HasWeekendShift(schedule: seq<Assignment>, doctor: string)
  {
    exists i :: 0 <= i < |schedule| && schedule[i].doctor == doctor && IsWeekend(schedule[i])
  }

  /** A doctor's weekend count is at most their shift count, and positive exactly when they work a weekend day. */
  lemma {:induction false} WeekendCount(schedule: seq<Assignment>, doctor: string)
    ensures CountOf(WeekendPart(schedule), doctor) <= CountOf(schedule, doctor)
    ensures CountOf(WeekendPart(schedule), doctor) > 0 <==> HasWeekendShift(schedule, doctor)
  {
    if schedule != [] {
      var prefix := schedule[..|schedule| - 1];
      var last := schedule[|schedule| - 1];
      assert schedule == prefix + [last];
      WeekendCount(prefix, doctor);
      WeekendPartStep(prefix, last);
      var w := WeekendPart(prefix);
      if IsWeekend(last) {
        CountOfAppend(w, last, doctor);
      } else {
        assert w + [] == w;
      }
      if HasWeekendShift(schedule, doctor) {
        var i :| 0 <= i < |schedule| && schedule[i].doctor == doctor && IsWeekend(schedule[i]);
        if i < |schedule| - 1 {
          assert prefix[i] == schedule[i];
        }
      }
      if HasWeekendShift(prefix, doctor) {
        var i :| 0 <= i < |prefix| && prefix[i].doctor == doctor && IsWeekend(prefix[i]);
        assert schedule[i] == prefix[i];
      }
    }
  }

  // ---------------------------------------------------------------------
  // Spacing: np.var(np.diff(day-of-month values)) per doctor

  /** `[int(day.strftime('%d')) ...]` for a doctor's triples, in schedule order. */
  function DayNumbers(schedule: seq<Assignment>, doctor: string): (xs: seq<int>)
    ensures |xs| == CountOf(schedule, doctor)
  {
    if schedule == [] then []
    else
      var last := schedule[|schedule| - 1];
      DayNumbers(schedule[..|schedule| - 1], doctor) + (if last.doctor == doctor then [last.day.day] else [])
  }

  /** `np.diff(xs)`: successive differences; negative across a month boundary. */
  function Diffs(xs: seq<int>): (ds: seq<int>)
    requires |xs| > 0
    ensures |ds| == |xs| - 1
  {
    seq(|xs| - 1, i requires 0 <= i < |xs| - 1 => xs[i + 1] - xs[i])
  }

  function Total(xs: seq<int>): int {
    if xs == [] then 0 else Total(xs[..|xs| - 1]) + xs[|xs| - 1]
  }

  function Squared(x: int): int {
    x * x
  }

  /** The squared deviations from the mean `total / n`, each scaled by `n * n` to stay in the integers. */
  function ScaledDeviations(xs: seq<int>, total: int, n: int): int {
    if xs == [] then 0
    else ScaledDeviations(xs[..|xs| - 1], total, n) + Squared(n * xs[|xs| - 1] - total)
  }

  /**
   * `np.var(xs)`: the population variance. With `n` values summing to `t`,
   * `(x - t/n)^2` is `(n*x - t)^2 / (n*n)`, so the mean of the squared
   * deviations is the integer sum of `(n*x - t)^2` over `n*n*n`;
   * `VarianceOfMean` proves the two forms equal.
   */
  function Variance(xs: seq<int>): real
    requires |xs| > 0
  {
    var n := |xs|;
    ScaledDeviations(xs, Total(xs), n) as real / (n * n * n) as real
  }

  lemma SquarePositive(d: int)
    ensures Squared(d) >= 0
    ensures d != 0 ==> Squared(d) > 0
  {
    if d > 0 {
      assert d * d > 0;
    } else if d < 0 {
      assert d * d > 0;
    }
  }

  lemma {:induction false} ScaledDeviationsZero(xs: seq<int>, total: int, n: int)
    ensures ScaledDeviations(xs, total, n) >= 0
    ensures ScaledDeviations(xs, total, n) == 0 <==> forall i :: 0 <= i < |xs| ==> n * xs[i] == total
  {
    if xs != [] {
      var prefix := xs[..|xs| - 1];
      ScaledDeviationsZero(prefix, total, n);
      SquarePositive(n * xs[|xs| - 1] - total);
      if forall i :: 0 <= i < |prefix| ==> n * prefix[i] == total {
        assert forall i :: 0 <= i < |xs| - 1 ==> xs[i] == prefix[i];
      }
      if forall i :: 0 <= i < |xs| ==> n * xs[i] == total {
        assert forall i :: 0 <= i < |prefix| ==> prefix[i] == xs[i];
      }
    }
  }

  lemma {:induction false} TotalOfConstant(xs: seq<int>, c: int)
    requires forall i :: 0 <= i < |xs| ==> xs[i] == c
    ensures Total(xs) == |xs| * c
  {
    if xs != [] {
      TotalOfConstant(xs[..|xs| - 1], c);
    }
  }

  /**
   * The variance is never negative, and it is zero exactly when all values
   * are equal: a doctor whose shifts are evenly spaced scores 0.
   */
  lemma VarianceZero(xs: seq<int>)
    requires |xs| > 0
    ensures Variance(xs) >= 0.0
    ensures Variance(xs) == 0.0 <==> forall i :: 0 <= i < |xs| ==> xs[i] == xs[0]
  {
    var n := |xs|;
    var t := Total(xs);
    ScaledDeviationsZero(xs, t, n);
    assert n * n > 0;
    assert n * n * n > 0;
    if forall i :: 0 <= i < |xs| ==> xs[i] == xs[0] {
      TotalOfConstant(xs, xs[0]);
    }
  }

  /** The arithmetic mean `sum(xs) / len(xs)`. */
  function Mean(xs: seq<int>): real
    requires |xs| > 0
  {
    Total(xs) as real / |xs| as real
  }

  function Square(r: real): real {
    r * r
  }

  function SumReals(ys: seq<real>): real {
    if ys == [] then 0.0 else SumReals(ys[..|ys| - 1]) + ys[|ys| - 1]
  }

  /** The squared distance of each value from `mean`, over the reals. */
  function Distances(xs: seq<int>, mean: real): (ds: seq<real>)
    ensures |ds| == |xs|
  {
    seq(|xs|, i requires 0 <= i < |xs| => Square(xs[i] as real - mean))
  }

  /** The sum of the squared distances of the values from `mean`. */
  function SquaredDistances(xs: seq<int>, mean: real): real {
    SumReals(Distances(xs, mean))
  }

  /** Each value's `(n*x - total)^2`, the terms `ScaledDeviations` adds up. */
  function ScaledTerms(xs: seq<int>, total: int, n: int): (ts: seq<int>)
    ensures |ts| == |xs|
  {
    seq(|xs|, i requires 0 <= i < |xs| => Squared(n * xs[i] - total))
  }

  lemma {:induction false} ScaledDeviationsTerms(xs: seq<int>, total: int, n: int)
    ensures ScaledDeviations(xs, total, n) == Total(ScaledTerms(xs, total, n))
  {
    if xs != [] {
      ScaledDeviationsTerms(xs[..|xs| - 1], total, n);
      assert ScaledTerms(xs, total, n)[..|xs| - 1] == ScaledTerms(xs[..|xs| - 1], total, n);
    }
  }

  /** `k * x`, written as `k` additions so that sums can be scaled term by term. */
  function Times(k: nat, x: real): real {
    if k == 0 then 0.0 else Times(k - 1, x) + x
  }

  lemma {:induction false} TimesAdd(k: nat, a: real, b: real)
    ensures Times(k, a + b) == Times(k, a) + Times(k, b)
  {
    if k > 0 {
      TimesAdd(k - 1, a, b);
    }
  }

  lemma {:induction false} TimesZero(k: nat)
    ensures Times(k, 0.0) == 0.0
  {
    if k > 0 {
      TimesZero(k - 1);
    }
  }

  lemma {:induction false} TimesProduct(k: nat, x: real)
    ensures Times(k, x) == k as real * x
  {
    if k > 0 {
      TimesProduct(k - 1, x);
      assert Times(k - 1, x) == (k - 1) as real * x;
      assert (k - 1) as real * x + x == k as real * x;
    }
  }

  /** One scaled term is `n*n` times the squared distance from the mean `m = total / n`. */
  lemma ScaledTerm(x: int, total: int, n: nat, m: real)
    requires total as real == n as real * m
    ensures Squared(n * x - total) as real == (n * n) as real * Square(x as real - m)
  {
    var k := n * x - total;
    var d := x as real - m;
    var r := n as real;
    assert k as real == r * d;
    assert Squared(k) as real == k as real * k as real;
    assert (r * d) * (r * d) == (r * r) * (d * d);
  }

  lemma ScaledTermTimes(x: int, total: int, n: nat, m: real, k: nat)
    requires total as real == n as real * m && k == n * n
    ensures Squared(n * x - total) as real == Times(k, Square(x as real - m))
  {
    ScaledTerm(x, total, n, m);
    TimesProduct(k, Square(x as real - m));
  }

  lemma TermAt(xs: seq<int>, total: int, n: nat, m: real, k: nat, i: int)
    requires total as real == n as real * m && k == n * n && 0 <= i < |xs|
    ensures ScaledTerms(xs, total, n)[i] as real == Times(k, Distances(xs, m)[i])
  {
    ScaledTermTimes(xs[i], total, n, m, k);
  }

  /** Each integer term is `k` times the real term beside it. */
  predicate ScaledBy(ts: seq<int>, ds: seq<real>, k: nat) {
    |ts| == |ds| && forall i :: 0 <= i < |ts| ==> ts[i] as real == Times(k, ds[i])
  }

  /** Scaling every term by the same factor scales the sum by it. */
  lemma {:induction false} ScaleSum(ts: seq<int>, ds: seq<real>, k: nat)
    requires ScaledBy(ts, ds, k)
    ensures Total(ts) as real == Times(k, SumReals(ds))
  {
    if ts != [] {
      var last := |ts| - 1;
      assert ScaledBy(ts[..last], ds[..last], k);
      ScaleSum(ts[..last], ds[..last], k);
      assert ts[last] as real == Times(k, ds[last]);
      TimesAdd(k, SumReals(ds[..last]), ds[last]);
    } else {
      TimesZero(k);
    }
  }

  lemma TermsScaled(xs: seq<int>, total: int, n: nat, m: real, k: nat)
    requires total as real == n as real * m && k == n * n
    ensures ScaledBy(ScaledTerms(xs, total, n), Distances(xs, m), k)
  {
    forall i | 0 <= i < |xs|
      ensures ScaledTerms(xs, total, n)[i] as real == Times(k, Distances(xs, m)[i])
    {
      TermAt(xs, total, n, m, k, i);
    }
  }

  /** The scaled integer sum is `n*n` times the real sum of squared distances from the mean. */
  lemma ScaledDeviationsReal(xs: seq<int>, total: int, n: nat, m: real, k: nat)
    requires total as real == n as real * m && k == n * n
    ensures ScaledDeviations(xs, total, n) as real == Times(k, SquaredDistances(xs, m))
  {
    TermsScaled(xs, total, n, m, k);
    ScaleSum(ScaledTerms(xs, total, n), Distances(xs, m), k);
    ScaledDeviationsTerms(xs, total, n);
  }

  lemma MeanTimesCount(t: int, n: int)
    requires n > 0
    ensures t as real == n as real * (t as real / n as real)
  {
  }

  lemma Cancel(s: int, d: real, n: int)
    requires n > 0 && s as real == (n * n) as real * d
    ensures s as real / (n * n * n) as real == d / n as real
  {
    var scale, r := (n * n) as real, n as real;
    assert scale > 0.0 && r > 0.0;
    assert (n * n * n) as real == scale * r;
    var q := d / r;
    assert d == q * r;
    assert s as real == (scale * r) * q;
  }

  /**
   * The integer form of the variance is `np.var`'s own definition: the
   * squared distances from the mean, summed and divided by the count.
   */
  lemma VarianceOfMean(xs: seq<int>)
    requires |xs| > 0
    ensures Variance(xs) == SquaredDistances(xs, Mean(xs)) / |xs| as real
  {
    var n := |xs|;
    MeanTimesCount(Total(xs), n);
    var k: nat := n * n;
    ScaledDeviationsReal(xs, Total(xs), n, Mean(xs), k);
    TimesProduct(k, SquaredDistances(xs, Mean(xs)));
    Cancel(ScaledDeviations(xs, Total(xs), n), SquaredDistances(xs, Mean(xs)), n);
  }




  /** The summed variances of the gaps, over the doctors in `order` that have two or more shifts. */
  function Spacing(schedule: seq<Assignment>, order: seq<string>): real {
    if order == [] then 0.0
    else
      var ds := DayNumbers(schedule, order[|order| - 1]);
      Spacing(schedule, order[..|order| - 1]) + (if |ds| > 1 then Variance(Diffs(ds)) else 0.0)
  }

  lemma {:induction false} SpacingNonNegative(schedule: seq<Assignment>, order: seq<string>)
    ensures Spacing(schedule, order) >= 0.0
  {
    if order != [] {
      SpacingNonNegative(schedule, order[..|order| - 1]);
      var ds := DayNumbers(schedule, order[|order| - 1]);
      if |ds| > 1 {
        VarianceZero(Diffs(ds));
      }
    }
  }

  function CountColumn(schedule: seq<Assignment>, order: seq<string>): seq<int> {
    seq(|order|, i requires 0 <= i < |order| => CountOf(schedule, order[i]))
  }

  /** A schedule stage 2 can score: `max()` finds a shift count and a weekend count. */
  predicate Scorable(schedule: seq<Assignment>)
  {
    schedule != [] && WeekendPart(schedule) != []
  }

  /** Why stage 2 cannot score a schedule: the first `max()` over an empty dict. */
  function ScoreFault(schedule: seq<Assignment>): Fault
  {
    if schedule == [] then NoShifts else NoWeekendShifts
  }

  /**
   * `total_difference`: the spacing variances of the doctors who have a
   * shift, plus the shift-count spread over those doctors, plus the
   * weekend-count spread over the doctors with a weekend shift.
   */
  function Stage2Score(schedule: seq<Assignment>): real
    requires Scorable(schedule)
  {
    DoctorsListed(schedule);
    DoctorsListed(WeekendPart(schedule));
    var order := Doctors(schedule);
    var weekendOrder := Doctors(WeekendPart(schedule));
    Spacing(schedule, order)
    + Spread(CountColumn(schedule, order)) as real
    + Spread(CountColumn(WeekendPart(schedule), weekendOrder)) as real
  }

  /** Each of the three parts of the stage-2 total is non-negative, so the total is too. */
  lemma Stage2Parts(schedule: seq<Assignment>)
    requires Scorable(schedule)
    ensures Spacing(schedule, Doctors(schedule)) >= 0.0
    ensures |Doctors(schedule)| > 0 && Spread(CountColumn(schedule, Doctors(schedule))) >= 0
    ensures |Doctors(WeekendPart(schedule))| > 0
         && Spread(CountColumn(WeekendPart(schedule), Doctors(WeekendPart(schedule)))) >= 0
    ensures Stage2Score(schedule) >= 0.0
  {
    DoctorsListed(schedule);
    DoctorsListed(WeekendPart(schedule));
    SpacingNonNegative(schedule, Doctors(schedule));
    SpreadBounds(CountColumn(schedule, Doctors(schedule)));
    SpreadBounds(CountColumn(WeekendPart(schedule), Doctors(WeekendPart(schedule))));
  }

  /** The stage-2 total, read off the two tallies of `calculate_shift_stats`. */
  lemma Stage2ScoreOfTallies(schedule: seq<Assignment>, shifts: Tally, weekend: Tally)
    requires Counts(shifts, schedule) && Counts(weekend, WeekendPart(schedule)) && Scorable(schedule)
    ensures |shifts.order| > 0 && |weekend.order| > 0
    ensures forall d :: d in shifts.order ==> d in shifts.count
    ensures forall d :: d in weekend.order ==> d in weekend.count
    ensures Stage2Score(schedule) == Spacing(schedule, shifts.order)
              + Spread(Column(shifts.order, shifts.count)) as real
              + Spread(Column(weekend.order, weekend.count)) as real
  {
    DoctorsListed(schedule);
    DoctorsListed(WeekendPart(schedule));
    assert Column(shifts.order, shifts.count) == CountColumn(schedule, shifts.order);
    assert Column(weekend.order, weekend.count) == CountColumn(WeekendPart(schedule), weekend.order);
  }

  /** A tally is empty exactly when its schedule is. */
  lemma TalliesEmpty(schedule: seq<Assignment>, shifts: Tally, weekend: Tally)
    requires Counts(shifts, schedule) && Counts(weekend, WeekendPart(schedule))
    ensures shifts.order == [] <==> schedule == []
    ensures weekend.order == [] <==> WeekendPart(schedule) == []
    ensures forall d :: d in shifts.order ==> d in shifts.count
    ensures forall d :: d in weekend.order ==> d in weekend.count
  {
    DoctorsListed(schedule);
    DoctorsListed(WeekendPart(schedule));
  }

  /** Lines 160-172: the loop over the shift dict's keys summing the gap variances of doctors with two or more shifts. */
  method SpacingTotal(schedule: seq<Assignment>, order: seq<string>) returns (total: real)
    ensures total == Spacing(schedule, order)
  {
    total := 0.0;
    for j := 0 to |order|
      invariant total == Spacing(schedule, order[..j])
    {
      var days := DayNumbers(schedule, order[j]);
      if |days| > 1 {
        total := total + Variance(Diffs(days));
      }
      assert order[..j + 1][..j] == order[..j];
    }
    assert order[..|order|] == order;
  }

  /**
   * Lines 153-174 for one kept schedule: the stats, the two spreads (each
   * `max()` raising on an empty dict), and the spacing total.
   */
  method ScoreSchedule(schedule: seq<Assignment>) returns (r: Result<real, Fault>)
    ensures r.Ok? <==> Scorable(schedule)
    ensures r.Ok? ==> r.value == Stage2Score(schedule)
    ensures r.Err? ==> r.error == ScoreFault(schedule)
  {
    var shifts, weekend := ShiftStats(schedule);
    TalliesEmpty(schedule, shifts, weekend);
    if shifts.order == [] {
      return Err(NoShifts);
    }
    if weekend.order == [] {
      return Err(NoWeekendShifts);
    }
    var total := TotalDifference(schedule, shifts, weekend);
    return Ok(total);
  }

  /** Lines 155-174 once both dicts are non-empty: the two spreads plus the spacing total. */
  method TotalDifference(schedule: seq<Assignment>, shifts: Tally, weekend: Tally) returns (total: real)
    requires Counts(shifts, schedule) && Counts(weekend, WeekendPart(schedule)) && Scorable(schedule)
    ensures total == Stage2Score(schedule)
  {
    Stage2ScoreOfTallies(schedule, shifts, weekend);
    var shiftDifference := Spread(Column(shifts.order, shifts.count));
    var weekendDifference := Spread(Column(weekend.order, weekend.count));
    var totalVariance := SpacingTotal(schedule, shifts.order);
    total := totalVariance + shiftDifference as real + weekendDifference as real;
  }
}
