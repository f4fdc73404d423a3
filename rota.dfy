/**
 * One trial of the rota search: for each night, drop the doctors named in
 * the cooldown window at the end of the `shifts` history, sample that
 * night's headcount from the rest, and record each pick with
 * `assign_shift`, which appends to `schedule` and `shifts` and adds the
 * night's weight to the doctor's `points`.
 */
module Rota {
  import opened Wrappers
  import opened Errors
  import opened Calendar

  /** A `(day, doctor, points_value)` triple of a schedule; points in half-points. */
  datatype Assignment = Assignment(day: Date, doctor: string, halfPoints: int)

  /** A `(day.day, doctor)` entry of the `shifts` history. */
  datatype Shift = Shift(dayOfMonth: int, doctor: string)

  /** A finished trial: its schedule and the `points` dict it accumulated. */
  datatype Candidate = Candidate(schedule: seq<Assignment>, points: map<string, int>)

  predicate NoDup<T(==)>(s: seq<T>) {
    forall i, j :: 0 <= i < j < |s| ==> s[i] != s[j]
  }

  function ShiftsOf(schedule: seq<Assignment>): seq<Shift> {
    seq(|schedule|, i requires 0 <= i < |schedule| => Shift(schedule[i].day.day, schedule[i].doctor))
  }

  /** The sum of the weights of a doctor's triples. */
  function PointsOf(schedule: seq<Assignment>, doctor: string): int {
    if schedule == [] then 0
    else
      var last := schedule[|schedule| - 1];
      PointsOf(schedule[..|schedule| - 1], doctor) + (if last.doctor == doctor then last.halfPoints else 0)
  }

  lemma PointsOfAppend(schedule: seq<Assignment>, a: Assignment, doctor: string)
    ensures PointsOf(schedule + [a], doctor) == PointsOf(schedule, doctor) + (if a.doctor == doctor then a.halfPoints else 0)
  {
    assert (schedule + [a])[..|schedule|] == schedule;
  }

  /**
   * `points` has one key per doctor, each holding the sum of that doctor's
   * weights, and every triple names one of those doctors.
   */
  ghost predicate Tallied(points: map<string, int>, schedule: seq<Assignment>, doctors: seq<string>) {
    && (forall d :: d in points <==> d in doctors)
    && (forall d :: d in points ==> points[d] == PointsOf(schedule, d))
    && (forall a :: a in schedule ==> a.doctor in points)
  }

  /** The mutable state of one trial: the `schedule`, `points` and `shifts` that `assign_shift` updates. */
  class Trial {
    const doctors: seq<string>
    var schedule: seq<Assignment>
    var points: map<string, int>
    var shifts: seq<Shift>

    ghost predicate Valid()
      reads this
    {
      Tallied(points, schedule, doctors) && shifts == ShiftsOf(schedule)
    }

    /** `schedule = []`, `points = {doctor: 0 for doctor in DOCTORS}`, `shifts = []`. */
    constructor (doctors: seq<string>)
      ensures this.doctors == doctors && Valid()
      ensures schedule == [] && shifts == []
      ensures points == map d | d in doctors :: 0
    {
      this.doctors := doctors;
      schedule := [];
      points := map d | d in doctors :: 0;
      shifts := [];
    }

    /** `assign_shift(day, doctor, points_value)`: only this doctor's total moves, by exactly the weight. */
    method AssignShift(day: Date, doctor: string, value: int)
      requires Valid() && doctor in points
      modifies this
      ensures Valid()
      ensures schedule == old(schedule) + [Assignment(day, doctor, value)]
      ensures shifts == old(shifts) + [Shift(day.day, doctor)]
      ensures points == old(points)[doctor := old(points)[doctor] + value]
    {
      var a := Assignment(day, doctor, value);
      forall d | d in points
        ensures PointsOf(schedule + [a], d) == PointsOf(schedule, d) + (if d == doctor then value else 0)
      {
        PointsOfAppend(schedule, a, d);
      }
      schedule := schedule + [a];
      points := points[doctor := points[doctor] + value];
      shifts := shifts + [Shift(day.day, doctor)];
    }
  }

  /** `int(n - ceil(n / 3))`: how many history entries the cooldown looks back on. */
  function CooldownLength(n: nat): int {
    n - (n + 2) / 3
  }

  /** For a non-empty pool the look-back is below the pool size, and it is 0 only for a single doctor. */
  lemma CooldownBounds(n: nat)
    requires n >= 1
    ensures 0 <= CooldownLength(n) < n
    ensures CooldownLength(n) == 0 <==> n == 1
  {
  }

  /**
   * `shifts[-k:]`: the last k entries of the history. When k is 0 the slice
   * is `shifts[0:]`, the whole history, and a k beyond the history is the
   * whole history too.
   */
  function Window(history: seq<Shift>, k: nat): (w: seq<Shift>)
    ensures |w| <= |history| && w == history[|history| - |w|..]
    ensures k == 0 || k >= |history| ==> w == history
    ensures 0 < k < |history| ==> |w| == k
  {
    if k == 0 || k >= |history| then history else history[|history| - k..]
  }

  /** `exclude_doctors`: the doctors named in the cooldown window. */
  function Excluded(history: seq<Shift>, n: nat): set<string> {
    set s | s in Window(history, CooldownLength(n)) :: s.doctor
  }

  /** `[d for d in DOCTORS if d not in exclude_doctors]`, order and repeats kept. */
  function Available(doctors: seq<string>, excluded: set<string>): (a: seq<string>)
    ensures |a| <= |doctors|
    ensures forall d :: d in a <==> d in doctors && d !in excluded
  {
    if doctors == [] then []
    else if doctors[0] in excluded then Available(doctors[1..], excluded)
    else [doctors[0]] + Available(doctors[1..], excluded)
  }

  lemma {:induction false} AvailableNoDup(doctors: seq<string>, excluded: set<string>)
    requires NoDup(doctors)
    ensures NoDup(Available(doctors, excluded))
  {
    if doctors != [] {
      AvailableNoDup(doctors[1..], excluded);
    }
  }

  /** The doctors a night may draw from, given the history so far. */
  function Pool(doctors: seq<string>, history: seq<Shift>): seq<string> {
    Available(doctors, Excluded(history, |doctors|))
  }

  /** `random.sample(pool, count)` returned `picks`: count entries taken from distinct places of the pool. */
  ghost predicate IsDraw(picks: seq<string>, count: int, pool: seq<string>) {
    |picks| == count && multiset(picks) <= multiset(pool)
  }

  /**
   * `random.sample(pool, k)`: ValueError unless 0 <= k <= len(pool);
   * otherwise k picks without replacement. The random source is the stream
   * `rand`, read from position `cursor`: each draw chooses among the places
   * not yet taken, so every ordered choice of k distinct places is possible.
   */
  method Sample(pool: seq<string>, k: int, rand: nat -> nat, cursor: nat)
    returns (picks: Option<seq<string>>, next: nat)
    ensures picks.None? <==> k < 0 || k > |pool|
    ensures picks.Some? ==> |picks.value| == k && multiset(picks.value) <= multiset(pool)
    ensures next == cursor + (if picks.Some? then k else 0)
  {
    if k < 0 || k > |pool| {
      return None, cursor;
    }
    var chosen: seq<string> := [];
    var remaining := pool;
    for i := 0 to k
      invariant |chosen| == i && |remaining| == |pool| - i
      invariant multiset(chosen) + multiset(remaining) == multiset(pool)
    {
      var j := rand(cursor + i) % |remaining|;
      assert remaining == remaining[..j] + [remaining[j]] + remaining[j + 1..];
      chosen := chosen + [remaining[j]];
      remaining := remaining[..j] + remaining[j + 1..];
    }
    return Some(chosen), cursor + k;
  }

  lemma DrawnFromPool(picks: seq<string>, pool: seq<string>)
    requires multiset(picks) <= multiset(pool)
    ensures forall x :: x in picks ==> x in pool
  {
    forall x | x in picks
      ensures x in pool
    {
      assert x in multiset(picks);
    }
  }

  lemma {:induction false} NoDupCount(s: seq<string>, x: string)
    requires NoDup(s)
    ensures multiset(s)[x] <= 1
  {
    if s != [] {
      NoDupCount(s[1..], x);
      assert s == [s[0]] + s[1..];
      if s[0] == x {
        assert x !in s[1..];
      }
    }
  }

  lemma RepeatCount(s: seq<string>, i: int, j: int)
    requires 0 <= i < j < |s| && s[i] == s[j]
    ensures multiset(s)[s[i]] >= 2
  {
    assert s == s[..i] + [s[i]] + s[i + 1..j] + [s[j]] + s[j + 1..];
  }

  /** Sampling from a pool of distinct names gives distinct names. */
  lemma DrawNoDup(picks: seq<string>, pool: seq<string>)
    requires multiset(picks) <= multiset(pool) && NoDup(pool)
    ensures NoDup(picks)
  {
    forall i, j | 0 <= i < j < |picks|
      ensures picks[i] != picks[j]
    {
      if picks[i] == picks[j] {
        RepeatCount(picks, i, j);
        NoDupCount(pool, picks[i]);
      }
    }
  }

  /**
   * A night's draw: as many doctors as the headcount, all from the pool and
   * none in the cooldown window, and pairwise distinct when the names are.
   */
  lemma DrawProperties(picks: seq<string>, count: int, doctors: seq<string>, history: seq<Shift>)
    requires IsDraw(picks, count, Pool(doctors, history))
    ensures |picks| == count
    ensures forall x :: x in picks ==> x in doctors && x !in Excluded(history, |doctors|)
    ensures NoDup(doctors) ==> NoDup(picks)
  {
    DrawnFromPool(picks, Pool(doctors, history));
    if NoDup(doctors) {
      AvailableNoDup(doctors, Excluded(history, |doctors|));
      DrawNoDup(picks, Pool(doctors, history));
    }
  }

  /** The triples of one night, in pick order. */
  function Row(day: Date, picks: seq<string>, value: int): seq<Assignment> {
    seq(|picks|, j requires 0 <= j < |picks| => Assignment(day, picks[j], value))
  }

  /** The schedule a trial builds from its picks, night by night. */
  function Expand(days: seq<Date>, weights: map<Date, int>, nights: seq<seq<string>>): seq<Assignment>
    requires |nights| <= |days| && forall d :: d in days ==> d in weights
  {
    if nights == [] then []
    else
      var i := |nights| - 1;
      Expand(days, weights, nights[..i]) + Row(days[i], nights[i], weights[days[i]])
  }

  /** `zip(days, num_doctors_per_night)` stops at the shorter list. */
  function Nights(days: seq<Date>, counts: seq<int>): nat {
    if |days| <= |counts| then |days| else |counts|
  }

  function Sum(xs: seq<int>): int {
    if xs == [] then 0 else Sum(xs[..|xs| - 1]) + xs[|xs| - 1]
  }

  /** A trial's schedule holds one triple per filled slot: the headcounts of the nights summed. */
  lemma {:induction false} SlotCount(days: seq<Date>, weights: map<Date, int>, nights: seq<seq<string>>, counts: seq<int>)
    requires |nights| <= |days| && |nights| <= |counts| && forall d :: d in days ==> d in weights
    requires forall j :: 0 <= j < |nights| ==> |nights[j]| == counts[j]
    ensures |Expand(days, weights, nights)| == Sum(counts[..|nights|])
  {
    if nights != [] {
      var i := |nights| - 1;
      SlotCount(days, weights, nights[..i], counts);
      assert counts[..|nights|][..i] == counts[..i];
    }
  }

  /** Every triple falls on one of the nights walked and carries that night's weight. */
  lemma {:induction false} ExpandWeights(days: seq<Date>, weights: map<Date, int>, nights: seq<seq<string>>)
    requires |nights| <= |days| && forall d :: d in days ==> d in weights
    ensures forall a :: a in Expand(days, weights, nights) ==>
              a.day in days[..|nights|] && a.day in weights && a.halfPoints == weights[a.day]
  {
    if nights != [] {
      var i := |nights| - 1;
      ExpandWeights(days, weights, nights[..i]);
      assert days[..|nights|] == days[..i] + [days[i]];
    }
  }

  /** Every night drawn so far was a valid draw from the pool its history left. */
  ghost predicate DrawsMatch(doctors: seq<string>, days: seq<Date>, weights: map<Date, int>, counts: seq<int>,
                             nights: seq<seq<string>>)
    requires |nights| <= |days| && forall d :: d in days ==> d in weights
  {
    && |nights| <= |counts|
    && forall i :: 0 <= i < |nights| ==>
         IsDraw(nights[i], counts[i], Pool(doctors, ShiftsOf(Expand(days, weights, nights[..i]))))
  }

  lemma DrawsExtend(doctors: seq<string>, days: seq<Date>, weights: map<Date, int>, counts: seq<int>,
                    nights: seq<seq<string>>, drawn: seq<string>)
    requires |nights| < |days| && |nights| < |counts| && forall d :: d in days ==> d in weights
    requires DrawsMatch(doctors, days, weights, counts, nights)
    requires IsDraw(drawn, counts[|nights|], Pool(doctors, ShiftsOf(Expand(days, weights, nights))))
    ensures DrawsMatch(doctors, days, weights, counts, nights + [drawn])
    ensures Expand(days, weights, nights + [drawn])
         == Expand(days, weights, nights) + Row(days[|nights|], drawn, weights[days[|nights|]])
  {
    var longer := nights + [drawn];
    assert longer[..|nights|] == nights;
    forall i | 0 <= i < |nights|
      ensures longer[..i] == nights[..i] && longer[i] == nights[i]
    {
    }
  }

  /** `[assign_shift(day, doctor, points_value) for doctor in doctors]` for one night. */
  method FillNight(t: Trial, day: Date, value: int, drawn: seq<string>)
    requires t.Valid() && forall x :: x in drawn ==> x in t.doctors
    modifies t
    ensures t.Valid()
    ensures t.schedule == old(t.schedule) + Row(day, drawn, value)
  {
    ghost var before := t.schedule;
    for j := 0 to |drawn|
      invariant t.Valid()
      invariant t.schedule == before + Row(day, drawn[..j], value)
    {
      t.AssignShift(day, drawn[j], value);
      assert drawn[..j + 1] == drawn[..j] + [drawn[j]];
    }
    assert drawn[..|drawn|] == drawn;
  }

  /**
   * The trial loop: for each night the zip reaches, sample from the doctors
   * outside the cooldown window and record every pick. `nights` holds the
   * draws made; a night whose headcount cannot be drawn raises, and the
   * whole request fails with it.
   */
  method RunTrial(doctors: seq<string>, days: seq<Date>, weights: map<Date, int>, counts: seq<int>,
                  rand: nat -> nat, cursor: nat)
    returns (r: Result<Candidate, Fault>, nights: seq<seq<string>>, next: nat)
    requires forall d :: d in days ==> d in weights
    ensures |nights| <= Nights(days, counts)
    ensures forall i :: 0 <= i < |nights| ==>
              IsDraw(nights[i], counts[i], Pool(doctors, ShiftsOf(Expand(days, weights, nights[..i]))))
    ensures r.Ok? ==>
              && |nights| == Nights(days, counts)
              && r.value.schedule == Expand(days, weights, nights)
              && Tallied(r.value.points, r.value.schedule, doctors)
              && |r.value.schedule| == Sum(counts[..Nights(days, counts)])
    ensures r.Err? ==>
              && |nights| < Nights(days, counts)
              && r.error == SampleTooLarge(|nights|)
              && var pool := Pool(doctors, ShiftsOf(Expand(days, weights, nights)));
                 counts[|nights|] < 0 || counts[|nights|] > |pool|
  {
    var t := new Trial(doctors);
    nights := [];
    next := cursor;
    var m := Nights(days, counts);
    for i := 0 to m
      invariant t.Valid() && t.doctors == doctors
      invariant |nights| == i
      invariant t.schedule == Expand(days, weights, nights)
      invariant DrawsMatch(doctors, days, weights, counts, nights)
    {
      var day := days[i];
      var value := weights[day];
      var available := Pool(doctors, t.shifts);
      var picks, after := Sample(available, counts[i], rand, next);
      if picks.None? {
        r := Err(SampleTooLarge(i));
        return;
      }
      next := after;
      var drawn := picks.value;
      DrawnFromPool(drawn, available);
      FillNight(t, day, value, drawn);
      DrawsExtend(doctors, days, weights, counts, nights, drawn);
      nights := nights + [drawn];
    }
    SlotCount(days, weights, nights, counts);
    r := Ok(Candidate(t.schedule, t.points));
  }
}
