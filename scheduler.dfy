/**
 * The `schedule` handler from its request to its response: the parsing and
 * checks before the search, the search itself (the day list, the weights,
 * stage 1 and stage 2), and the assembly of the answer from the first
 * optimal schedule: its triples grouped by date under YYYY-MM-DD keys, its
 * shift counts, its points recomputed from zero, and the schedule name.
 */
module Scheduler {
  import opened Wrappers
  import opened Errors
  import opened Calendar
  import opened Fields
  import opened Rota
  import opened Fairness
  import opened Selection

  // ---------------------------------------------------------------------
  // Grouping by date

  /** A `(doctor, points_value)` pair of the grouped schedule, in half-points. */
  datatype Entry = Entry(doctor: string, halfPoints: int)

  /** The dates of a schedule, each once, in order of first appearance. */
  function DaysOf(schedule: seq<Assignment>): seq<Date> {
    if schedule == [] then []
    else
      var rest := DaysOf(schedule[..|schedule| - 1]);
      var day := schedule[|schedule| - 1].day;
      if day in rest then rest else rest + [day]
  }

  /** The pairs of the triples on `day`, in schedule order. */
  function EntriesOn(schedule: seq<Assignment>, day: Date): seq<Entry> {
    if schedule == [] then []
    else
      var a := schedule[|schedule| - 1];
      EntriesOn(schedule[..|schedule| - 1], day) + (if a.day == day then [Entry(a.doctor, a.halfPoints)] else [])
  }

  /** The first-appearance order lists each date of the schedule exactly once, and no other date. */
  lemma {:induction false} DaysListed(schedule: seq<Assignment>)
    ensures NoDup(DaysOf(schedule))
    ensures forall d :: d in DaysOf(schedule) <==> exists i :: 0 <= i < |schedule| && schedule[i].day == d
  {
    if schedule != [] {
      var n := |schedule| - 1;
      DaysListed(schedule[..n]);
      forall d | d in DaysOf(schedule[..n])
        ensures exists i :: 0 <= i < |schedule| && schedule[i].day == d
      {
        var i :| 0 <= i < n && schedule[..n][i].day == d;
        assert schedule[i].day == d;
      }
      forall d | exists i :: 0 <= i < |schedule| && schedule[i].day == d
        ensures d in DaysOf(schedule)
      {
        var i :| 0 <= i < |schedule| && schedule[i].day == d;
        if i < n {
          assert schedule[..n][i].day == d;
        }
      }
    }
  }

  /** Every date the first-appearance order lists is a date of the schedule, so a valid one. */
  lemma DaysValid(schedule: seq<Assignment>)
    requires forall a :: a in schedule ==> Valid(a.day)
    ensures forall i :: 0 <= i < |DaysOf(schedule)| ==> Valid(DaysOf(schedule)[i])
  {
    DaysListed(schedule);
    forall i | 0 <= i < |DaysOf(schedule)|
      ensures Valid(DaysOf(schedule)[i])
    {
      var d := DaysOf(schedule)[i];
      assert d in DaysOf(schedule);
      var j :| 0 <= j < |schedule| && schedule[j].day == d;
      assert schedule[j] in schedule;
    }
  }

  /** How many triples fall on one of `days`. */
  function Within(schedule: seq<Assignment>, days: seq<Date>): nat {
    if schedule == [] then 0
    else Within(schedule[..|schedule| - 1], days) + (if schedule[|schedule| - 1].day in days then 1 else 0)
  }

  /** The sizes of the groups of `days`, added up. */
  function GroupSizes(schedule: seq<Assignment>, days: seq<Date>): nat {
    if days == [] then 0
    else GroupSizes(schedule, days[..|days| - 1]) + |EntriesOn(schedule, days[|days| - 1])|
  }

  lemma {:induction false} WithinNone(schedule: seq<Assignment>)
    ensures Within(schedule, []) == 0
  {
    if schedule != [] {
      WithinNone(schedule[..|schedule| - 1]);
    }
  }

  lemma {:induction false} WithinStep(schedule: seq<Assignment>, days: seq<Date>, d: Date)
    requires d !in days
    ensures Within(schedule, days + [d]) == Within(schedule, days) + |EntriesOn(schedule, d)|
  {
    if schedule != [] {
      WithinStep(schedule[..|schedule| - 1], days, d);
    }
  }

  lemma {:induction false} SizesWithin(schedule: seq<Assignment>, days: seq<Date>)
    requires NoDup(days)
    ensures GroupSizes(schedule, days) == Within(schedule, days)
  {
    if days == [] {
      WithinNone(schedule);
    } else {
      var n := |days| - 1;
      SizesWithin(schedule, days[..n]);
      assert days == days[..n] + [days[n]];
      WithinStep(schedule, days[..n], days[n]);
    }
  }

  lemma {:induction false} WithinAll(schedule: seq<Assignment>, days: seq<Date>)
    requires forall i :: 0 <= i < |schedule| ==> schedule[i].day in days
    ensures Within(schedule, days) == |schedule|
  {
    if schedule != [] {
      var n := |schedule| - 1;
      forall i | 0 <= i < n
        ensures schedule[..n][i].day in days
      {
        assert schedule[..n][i] == schedule[i];
      }
      WithinAll(schedule[..n], days);
    }
  }

  /** The groups hold every triple exactly once: their sizes add up to the schedule's length. */
  lemma GroupedSizes(schedule: seq<Assignment>)
    ensures GroupSizes(schedule, DaysOf(schedule)) == |schedule|
  {
    DaysListed(schedule);
    SizesWithin(schedule, DaysOf(schedule));
    WithinAll(schedule, DaysOf(schedule));
  }

  /** `order` and `grouped` are the key order and the contents of the groups of `done`. */
  ghost predicate Grouped(done: seq<Assignment>, order: seq<Date>, grouped: map<Date, seq<Entry>>) {
    && order == DaysOf(done)
    && (forall d :: d in grouped <==> d in order)
    && (forall d :: d in grouped ==> grouped[d] == EntriesOn(done, d))
    && (forall d :: d !in grouped ==> EntriesOn(done, d) == [])
  }

  /** One triple through the body of the grouping loop keeps the groups those of the triples seen. */
  lemma GroupStep(done: seq<Assignment>, order: seq<Date>, grouped: map<Date, seq<Entry>>, a: Assignment,
                  order': seq<Date>, grouped': map<Date, seq<Entry>>)
    requires Grouped(done, order, grouped)
    requires order' == if a.day in grouped then order else order + [a.day]
    requires var started := if a.day in grouped then grouped else grouped[a.day := []];
             grouped' == started[a.day := started[a.day] + [Entry(a.doctor, a.halfPoints)]]
    ensures Grouped(done + [a], order', grouped')
  {
    var next := done + [a];
    assert next[..|done|] == done;
    assert DaysOf(next) == order';
    forall d | d in grouped'
      ensures grouped'[d] == EntriesOn(next, d)
    {
      if d != a.day {
        assert grouped'[d] == grouped[d];
      }
    }
    forall d | d !in grouped'
      ensures EntriesOn(next, d) == []
    {
      assert d !in grouped && d != a.day;
    }
  }

  /**
   * Lines 184-191: group the triples by date. `order` is the key order of
   * `grouped_schedule`; each date holds its pairs in schedule order.
   */
  method GroupByDay(schedule: seq<Assignment>) returns (order: seq<Date>, grouped: map<Date, seq<Entry>>)
    ensures order == DaysOf(schedule)
    ensures forall d :: d in grouped <==> d in order
    ensures forall d :: d in grouped ==> grouped[d] == EntriesOn(schedule, d)
  {
    order, grouped := [], map[];
    for i := 0 to |schedule|
      invariant Grouped(schedule[..i], order, grouped)
    {
      var a := schedule[i];
      ghost var order0, grouped0 := order, grouped;
      if a.day !in grouped {
        order := order + [a.day];
        grouped := grouped[a.day := []];
      }
      grouped := grouped[a.day := grouped[a.day] + [Entry(a.doctor, a.halfPoints)]];
      GroupStep(schedule[..i], order0, grouped0, a, order, grouped);
      assert schedule[..i + 1] == schedule[..i] + [a];
    }
    assert schedule[..|schedule|] == schedule;
  }

  /**
   * Lines 194-196: copy the groups under their dates written as YYYY-MM-DD.
   * Distinct dates give distinct keys, so no group overwrites another.
   */
  method RenderKeys(order: seq<Date>, grouped: map<Date, seq<Entry>>)
    returns (returned: map<string, seq<Entry>>, dates: seq<string>)
    requires NoDup(order)
    requires forall i :: 0 <= i < |order| ==> Valid(order[i]) && order[i] in grouped
    ensures |dates| == |order| && NoDup(dates)
    ensures forall k :: k in returned <==> k in dates
    ensures forall i :: 0 <= i < |order| ==>
              dates[i] == FormatDate(order[i]) && dates[i] in returned && returned[dates[i]] == grouped[order[i]]
  {
    returned, dates := map[], [];
    for i := 0 to |order|
      invariant |dates| == i && NoDup(dates)
      invariant forall k :: k in returned <==> k in dates
      invariant forall j :: 0 <= j < i ==> dates[j] == FormatDate(order[j]) && returned[dates[j]] == grouped[order[j]]
    {
      var key := FormatDate(order[i]);
      forall j | 0 <= j < i
        ensures dates[j] != key
      {
        if dates[j] == key {
          FormatInjective(order[j], order[i]);
        }
      }
      returned := returned[key := grouped[order[i]]];
      dates := dates + [key];
    }
  }

  // ---------------------------------------------------------------------
  // Points of the chosen schedule

  /** Lines 198-200: `points` from zero for every doctor, then each triple's weight added to its doctor. */
  method RecomputePoints(doctors: seq<string>, schedule: seq<Assignment>) returns (points: map<string, int>)
    requires forall a :: a in schedule ==> a.doctor in doctors
    ensures Tallied(points, schedule, doctors)
  {
    points := map d | d in doctors :: 0;
    for i := 0 to |schedule|
      invariant forall d :: d in points <==> d in doctors
      invariant forall d :: d in points ==> points[d] == PointsOf(schedule[..i], d)
    {
      var a := schedule[i];
      assert schedule[..i + 1] == schedule[..i] + [a];
      forall d | d in points
        ensures PointsOf(schedule[..i + 1], d) == PointsOf(schedule[..i], d) + (if a.doctor == d then a.halfPoints else 0)
      {
        PointsOfAppend(schedule[..i], a, d);
      }
      points := points[a.doctor := points[a.doctor] + a.halfPoints];
    }
    assert schedule[..|schedule|] == schedule;
  }

  /** A schedule and its doctors determine the points dict: recomputing gives what the trial accumulated. */
  lemma TalliedUnique(p: map<string, int>, q: map<string, int>, schedule: seq<Assignment>, doctors: seq<string>)
    requires Tallied(p, schedule, doctors) && Tallied(q, schedule, doctors)
    ensures p == q
  {
    assert forall d :: d in p <==> d in q;
    assert forall d :: d in p ==> p[d] == q[d];
  }

  // ---------------------------------------------------------------------
  // The request

  /**
   * The body of a `/schedule` request. `numDoctorsPerNight` holds the values
   * of the per-night dict in its iteration order; its keys are never read.
   */
  datatype Request = Request(doctorNames: string, startDate: string, endDate: string, sameNumDoctors: string,
                             numDoctors: Option<int>, numDoctorsPerNight: Option<seq<int>>,
                             holidayDays: string, find: int)

  /** What lines 48-66 make of a request: the doctors, the two ends of the period, the holidays, and the uniform headcounts. */
  datatype Plan = Plan(doctors: seq<string>, start: Date, end: Date, holidays: seq<Date>, counts: seq<int>)

  /** `(end_date - start_date).days + 1`: the length of `range` in the uniform headcount list. */
  function Span(start: Date, end: Date): int
    requires Valid(start) && Valid(end)
  {
    Ordinal(end) - Ordinal(start) + 1
  }

  /**
   * Lines 48-66, in their order: parse the start date, parse the end date,
   * build the uniform headcount list (where `int(None)` raises as soon as
   * the list is not empty), parse the holidays, split the doctor names.
   */
  function Prepare(req: Request): (r: Result<Plan, Fault>)
    ensures ParseDate(req.startDate).None? ==> r == Err(BadDate(req.startDate))
    ensures ParseDate(req.startDate).Some? && ParseDate(req.endDate).None? ==> r == Err(BadDate(req.endDate))
    ensures ParseDate(req.startDate).Some? && ParseDate(req.endDate).Some? ==>
              var missing := && req.sameNumDoctors == "Y" && req.numDoctors.None?
                             && Span(ParseDate(req.startDate).value, ParseDate(req.endDate).value) > 0;
              && (missing ==> r == Err(MissingHeadcount))
              && (!missing && ParseHolidays(req.holidayDays).Err? ==> r == Err(ParseHolidays(req.holidayDays).error))
              && (!missing && ParseHolidays(req.holidayDays).Ok? ==> r.Ok?)
    ensures r.Err? ==> r.error.BadDate? || r.error == MissingHeadcount
    ensures r.Ok? ==>
              && ParseDate(req.startDate) == Some(r.value.start) && ParseDate(req.endDate) == Some(r.value.end)
              && ParseHolidays(req.holidayDays) == Ok(r.value.holidays)
    ensures r.Ok? ==>
              && Valid(r.value.start) && Valid(r.value.end)
              && r.value.doctors == Split(req.doctorNames, ',')
              && |r.value.doctors| >= 1 && Join(r.value.doctors, ',') == req.doctorNames
              && (req.sameNumDoctors == "Y" && Span(r.value.start, r.value.end) > 0 ==>
                    && req.numDoctors.Some?
                    && |r.value.counts| == Span(r.value.start, r.value.end)
                    && forall i :: 0 <= i < |r.value.counts| ==> r.value.counts[i] == req.numDoctors.value)
              && (req.sameNumDoctors != "Y" || Span(r.value.start, r.value.end) <= 0 ==> r.value.counts == [])
  {
    match ParseDate(req.startDate)
    case None => Err(BadDate(req.startDate))
    case Some(start) =>
      match ParseDate(req.endDate)
      case None => Err(BadDate(req.endDate))
      case Some(end) =>
        var nights := Span(start, end);
        var uniform := req.sameNumDoctors == "Y" && nights > 0;
        if uniform && req.numDoctors.None? then Err(MissingHeadcount)
        else
          var counts := if uniform then seq(nights, _ => req.numDoctors.value) else [];
          match ParseHolidays(req.holidayDays)
          case Err(e) => Err(e)
          case Ok(holidays) =>
            JoinSplit(req.doctorNames, ',');
            Ok(Plan(Split(req.doctorNames, ','), start, end, holidays, counts))
  }

  /** A period ending on 9999-12-31 cannot be listed: the day loop steps past the last date. */
  predicate Overflows(p: Plan) {
    AtMost(p.start, p.end) && p.end == MaxDate
  }

  /**
   * Lines 75-77: outside uniform mode the values of the per-night dict are
   * appended to the list; a missing dict raises when it is iterated.
   */
  function Headcounts(req: Request, counts: seq<int>): Result<seq<int>, Fault> {
    if req.sameNumDoctors == "Y" then Ok(counts)
    else if req.numDoctorsPerNight.None? then Err(MissingHeadcount)
    else Ok(counts + req.numDoctorsPerNight.value)
  }

  /** The `points_per_day` dict as a function of the nights and the holidays. */
  ghost function WeightTable(days: seq<Date>, holidays: seq<Date>): map<Date, int>
    requires forall i :: 0 <= i < |days| ==> Valid(days[i])
  {
    map d | d in days :: Weight(d, holidays)
  }

  function SchedulesOf(trials: seq<Candidate>): seq<seq<Assignment>> {
    seq(|trials|, j requires 0 <= j < |trials| => trials[j].schedule)
  }

  // ---------------------------------------------------------------------
  // The response

  /** The response: `returned_schedule` with its key order, the two tallies, `points`, `score` and `schedule_name`. */
  datatype Response = Response(schedule: map<string, seq<Entry>>, dates: seq<string>, numShifts: Tally,
                               numWeekendShifts: Tally, points: map<string, int>, score: real, scheduleName: string)

  /**
   * `resp` is the answer built from `winner`: every date of the winner once,
   * in order of first appearance and written YYYY-MM-DD, holding that date's
   * pairs in schedule order; the winner's shift and weekend tallies; its
   * points from zero; the score; and the name built from the uuid.
   */
  ghost predicate Presents(resp: Response, winner: seq<Assignment>, doctors: seq<string>, score: real, uuid: string)
    requires forall a :: a in winner ==> Valid(a.day)
  {
    DaysValid(winner);
    var order := DaysOf(winner);
    && |resp.dates| == |order| && NoDup(resp.dates)
    && (forall k :: k in resp.schedule <==> k in resp.dates)
    && (forall i :: 0 <= i < |order| ==>
          && resp.dates[i] == FormatDate(order[i]) && resp.dates[i] in resp.schedule
          && resp.schedule[resp.dates[i]] == EntriesOn(winner, order[i]))
    && Counts(resp.numShifts, winner) && Counts(resp.numWeekendShifts, WeekendPart(winner))
    && Tallied(resp.points, winner, doctors)
    && resp.score == score
    && resp.scheduleName == ScheduleName(uuid)
  }

  /** Lines 184-205 once there is an optimal schedule: group, render, tally, recompute points, name. */
  method Assemble(winner: seq<Assignment>, doctors: seq<string>, score: real, uuid: string) returns (resp: Response)
    requires forall a :: a in winner ==> Valid(a.day) && a.doctor in doctors
    ensures Presents(resp, winner, doctors, score, uuid)
  {
    var order, grouped := GroupByDay(winner);
    DaysListed(winner);
    DaysValid(winner);
    var returned, dates := RenderKeys(order, grouped);
    var numShifts, numWeekendShifts := ShiftStats(winner);
    var points := RecomputePoints(doctors, winner);
    var name := ScheduleName(uuid);
    resp := Response(returned, dates, numShifts, numWeekendShifts, points, score, name);
  }

  // ---------------------------------------------------------------------
  // The search

  /**
   * Stage 1 ran to the end: `range(find)` trials, each feasible, with their
   * spreads, and the survivors among them.
   */
  ghost predicate StageOneDone(doctors: seq<string>, days: seq<Date>, weights: map<Date, int>, counts: seq<int>,
                               find: int, trials: seq<Candidate>, spreads: seq<real>, kept: seq<seq<Assignment>>)
  {
    && |doctors| > 0 && |trials| == (if find < 0 then 0 else find) && |spreads| == |trials|
    && AllFeasible(trials, doctors, days, weights, counts)
    && (forall j {:trigger Keyed(trials[j], SchedulesOf(trials)[j], spreads[j], doctors)} ::
          0 <= j < |trials| ==> Keyed(trials[j], SchedulesOf(trials)[j], spreads[j], doctors))
    && kept == Survivors(SchedulesOf(trials), spreads)
  }

  /**
   * How the search can fail: without trials there is no optimal schedule;
   * a night whose headcount cannot be drawn raises in stage 1; and after
   * stage 1 the first survivor stage 2 cannot score raises.
   */
  ghost predicate SearchFailed(doctors: seq<string>, days: seq<Date>, weights: map<Date, int>, counts: seq<int>,
                               find: int, trials: seq<Candidate>, spreads: seq<real>, kept: seq<seq<Assignment>>,
                               fault: Fault)
  {
    || (find <= 0 && fault == NoSchedule)
    || (find > 0 && Blocked(doctors, days, weights, counts, fault))
    || (&& find > 0 && StageOneDone(doctors, days, weights, counts, find, trials, spreads, kept)
        && exists i :: && 0 <= i < |kept| && !Scorable(kept[i]) && fault == ScoreFault(kept[i])
                       && forall j :: 0 <= j < i ==> Scorable(kept[j]))
  }

  /**
   * What the search found: stage 1 over `find > 0` trials; the stage-2
   * totals of its survivors, all defined; and the first of the stage-2
   * survivors, which one of the trials drew.
   */
  ghost predicate Searched(doctors: seq<string>, days: seq<Date>, weights: map<Date, int>, counts: seq<int>, find: int,
                           trials: seq<Candidate>, spreads: seq<real>, kept: seq<seq<Assignment>>, totals: seq<real>,
                           winner: seq<Assignment>)
  {
    && find > 0 && StageOneDone(doctors, days, weights, counts, find, trials, spreads, kept)
    && |totals| == |kept|
    && (forall j {:trigger Ranked(kept[j], totals[j])} :: 0 <= j < |kept| ==> Ranked(kept[j], totals[j]))
    && Survivors(kept, totals) != [] && winner == Survivors(kept, totals)[0]
    && exists j :: 0 <= j < |trials| && trials[j].schedule == winner
  }

  /**
   * Lines 113-195: stage 1 over `find` trials, stage 2 over its survivors,
   * and the first optimal schedule with `score`. With no optimal schedule
   * the NameError at line 195 ends the request; only `find <= 0` leads there.
   */
  method Search(doctors: seq<string>, days: seq<Date>, weights: map<Date, int>, counts: seq<int>, find: int,
                rand: nat -> nat)
    returns (r: Result<seq<Assignment>, Fault>, score: real, ghost trials: seq<Candidate>, ghost spreads: seq<real>,
             ghost kept: seq<seq<Assignment>>, ghost totals: seq<real>)
    requires |doctors| > 0 && forall d :: d in days ==> d in weights
    ensures find <= 0 <==> r == Err(NoSchedule)
    ensures r.Err? ==> SearchFailed(doctors, days, weights, counts, find, trials, spreads, kept, r.error)
    ensures r.Ok? ==>
              && Searched(doctors, days, weights, counts, find, trials, spreads, kept, totals, r.value)
              && score == Best(totals).value
  {
    spreads, kept, totals := [], [], [];
    var stage1: Result<seq<seq<Assignment>>, Fault>;
    var bestDifference: Option<real>;
    var next: nat;
    ghost var items: seq<seq<Assignment>>;
    stage1, bestDifference, next, trials, items, spreads := StageOne(doctors, days, weights, counts, find, rand, 0);
    if stage1.Err? {
      return Err(stage1.error), 0.0, trials, spreads, kept, totals;
    }
    var survivors := stage1.value;
    kept := survivors;
    forall j | 0 <= j < |trials|
      ensures items[j] == SchedulesOf(trials)[j]
    {
      assert Keyed(trials[j], items[j], spreads[j], doctors);
    }
    assert items == SchedulesOf(trials);
    SurvivorsMinimal(items, spreads);

    var ranking: Result<Ranking, Fault>;
    ranking, totals := StageTwo(survivors);
    if ranking.Err? {
      return Err(ranking.error), 0.0, trials, spreads, kept, totals;
    }
    SurvivorsMinimal(kept, totals);
    if |ranking.value.optimal| == 0 {
      return Err(NoSchedule), 0.0, trials, spreads, kept, totals;
    }
    var best := ranking.value.optimal[0];
    ghost var i :| 0 <= i < |kept| && best == kept[i] && forall k :: 0 <= k < |totals| ==> totals[i] <= totals[k];
    ghost var j :| 0 <= j < |items| && kept[i] == items[j] && forall k :: 0 <= k < |spreads| ==> spreads[j] <= spreads[k];
    assert trials[j].schedule == best;
    return Ok(best), ranking.value.score.value, trials, spreads, kept, totals;
  }

  /** A feasible trial over valid nights names valid dates and listed doctors only. */
  lemma TrialFits(c: Candidate, doctors: seq<string>, days: seq<Date>, weights: map<Date, int>, counts: seq<int>)
    requires Feasible(c, doctors, days, weights, counts)
    requires forall i :: 0 <= i < |days| ==> Valid(days[i])
    ensures forall a :: a in c.schedule ==> Valid(a.day) && a.doctor in doctors
  {
    forall a | a in c.schedule
      ensures Valid(a.day) && a.doctor in doctors
    {
      var k :| 0 <= k < |days| && days[k] == a.day;
    }
  }

  // ---------------------------------------------------------------------
  // The handler

  /**
   * Lines 68-205, once the request is parsed into `p`: a period ending on
   * 9999-12-31 overflows, a missing per-night dict raises, and then the
   * search runs. Otherwise the answer presents the first optimal schedule,
   * whose points are those the trial that drew it accumulated. The ghost
   * outputs are the nights, the trials, their stage-1 spreads, the stage-1
   * survivors, their stage-2 totals and the winner.
   */
  method Answer(req: Request, p: Plan, rand: nat -> nat, uuid: string)
    returns (r: Result<Response, Fault>, ghost days: seq<Date>, ghost trials: seq<Candidate>, ghost spreads: seq<real>,
             ghost kept: seq<seq<Assignment>>, ghost totals: seq<real>, ghost winner: seq<Assignment>)
    requires Valid(p.start) && Valid(p.end) && |p.doctors| >= 1
    ensures Overflows(p) ==> r == Err(DateOverflow)
    ensures !Overflows(p) && Headcounts(req, p.counts).Err? ==> r == Err(MissingHeadcount)
    ensures (!Overflows(p) && Headcounts(req, p.counts).Ok? && req.find <= 0) ==> r == Err(NoSchedule)
    ensures r == Err(NoSchedule) ==> req.find <= 0
    ensures r.Err? && !Overflows(p) && Headcounts(req, p.counts).Ok? ==>
              && IsPeriod(days, p.start, p.end)
              && SearchFailed(p.doctors, days, WeightTable(days, p.holidays), Headcounts(req, p.counts).value, req.find,
                              trials, spreads, kept, r.error)
    ensures r.Ok? ==>
              && !Overflows(p) && Headcounts(req, p.counts).Ok?
              && IsPeriod(days, p.start, p.end)
              && Searched(p.doctors, days, WeightTable(days, p.holidays), Headcounts(req, p.counts).value, req.find,
                          trials, spreads, kept, totals, winner)
              && (forall a :: a in winner ==> Valid(a.day))
              && Presents(r.value, winner, p.doctors, Best(totals).value, uuid)
              && exists j :: 0 <= j < |trials| && trials[j].schedule == winner && trials[j].points == r.value.points
  {
    days, trials, spreads, kept, totals, winner := [], [], [], [], [], [];
    var range := DayRange(p.start, p.end);
    if range.Err? {
      return Err(range.error), days, trials, spreads, kept, totals, winner;
    }
    var nights := range.value;
    days := nights;
    var nightly := Headcounts(req, p.counts);
    if nightly.Err? {
      return Err(nightly.error), days, trials, spreads, kept, totals, winner;
    }
    var weights := PointsPerDay(nights, p.holidays);
    assert weights == WeightTable(days, p.holidays);
    var found, score;
    found, score, trials, spreads, kept, totals := Search(p.doctors, nights, weights, nightly.value, req.find, rand);
    if found.Err? {
      return Err(found.error), days, trials, spreads, kept, totals, winner;
    }
    var best := found.value;
    winner := best;
    ghost var j :| 0 <= j < |trials| && trials[j].schedule == winner;
    TrialFits(trials[j], p.doctors, days, weights, nightly.value);
    var resp := Assemble(best, p.doctors, score, uuid);
    TalliedUnique(resp.points, trials[j].points, winner, p.doctors);
    r := Ok(resp);
  }

  /**
   * The `schedule` handler (lines 48-205). A request fails with the first
   * of: a start or end date strptime rejects, a missing uniform headcount, a
   * holiday strptime rejects, a period ending on 9999-12-31, a missing
   * per-night dict, and then whatever the search fails with; only a
   * non-positive `find` ends it without an optimal schedule. Otherwise the
   * answer presents the first optimal schedule of the search.
   */
  method Schedule(req: Request, rand: nat -> nat, uuid: string)
    returns (r: Result<Response, Fault>, ghost days: seq<Date>, ghost trials: seq<Candidate>, ghost spreads: seq<real>,
             ghost kept: seq<seq<Assignment>>, ghost totals: seq<real>, ghost winner: seq<Assignment>)
    ensures Prepare(req).Err? ==> r == Err(Prepare(req).error)
    ensures Prepare(req).Ok? && Overflows(Prepare(req).value) ==> r == Err(DateOverflow)
    ensures Prepare(req).Ok? && !Overflows(Prepare(req).value) && Headcounts(req, Prepare(req).value.counts).Err? ==>
              r == Err(MissingHeadcount)
    ensures (Prepare(req).Ok? && !Overflows(Prepare(req).value) && Headcounts(req, Prepare(req).value.counts).Ok?
             && req.find <= 0) ==> r == Err(NoSchedule)
    ensures r == Err(NoSchedule) ==> req.find <= 0
    ensures (r.Err? && Prepare(req).Ok? && !Overflows(Prepare(req).value)
             && Headcounts(req, Prepare(req).value.counts).Ok?) ==>
              var p := Prepare(req).value;
              && IsPeriod(days, p.start, p.end)
              && SearchFailed(p.doctors, days, WeightTable(days, p.holidays), Headcounts(req, p.counts).value, req.find,
                              trials, spreads, kept, r.error)
    ensures r.Ok? ==>
              && Prepare(req).Ok? && !Overflows(Prepare(req).value) && Headcounts(req, Prepare(req).value.counts).Ok?
              && var p := Prepare(req).value;
                 && IsPeriod(days, p.start, p.end)
                 && Searched(p.doctors, days, WeightTable(days, p.holidays), Headcounts(req, p.counts).value, req.find,
                             trials, spreads, kept, totals, winner)
                 && (forall a :: a in winner ==> Valid(a.day))
                 && Presents(r.value, winner, p.doctors, Best(totals).value, uuid)
                 && exists j :: 0 <= j < |trials| && trials[j].schedule == winner && trials[j].points == r.value.points
  {
    var plan := Prepare(req);
    if plan.Err? {
      return Err(plan.error), [], [], [], [], [], [];
    }
    r, days, trials, spreads, kept, totals, winner := Answer(req, plan.value, rand, uuid);
  }
}
