/**
 * The two selection stages of the search. Both walk candidates in order and
 * keep the ones whose key is smallest so far: a strictly smaller key
 * replaces the kept list, an equal key is appended to it, a larger key is
 * dropped. The `float('inf')` sentinel the source starts from is `None`.
 *
 * `Best` and `Survivors` say what that rule computes over a whole run: the
 * minimum key, and the candidates reaching it, in their original order.
 */
module Selection {
  import opened Wrappers
  import opened Errors
  import opened Calendar
  import opened Rota
  import opened Fairness

  /** The smallest key, or `None` for no keys at all. */
  function Best(keys: seq<real>): (b: Option<real>)
    ensures b.None? <==> keys == []
  {
    if keys == [] then None
    else
      var rest := Best(keys[..|keys| - 1]);
      var key := keys[|keys| - 1];
      if rest.None? || key < rest.value then Some(key) else rest
  }

  /** The best key is one of the keys, and no key is below it. */
  lemma {:induction false} BestMinimal(keys: seq<real>)
    requires keys != []
    ensures exists i :: 0 <= i < |keys| && keys[i] == Best(keys).value
    ensures forall i :: 0 <= i < |keys| ==> Best(keys).value <= keys[i]
  {
    var n := |keys| - 1;
    if n == 0 {
      assert keys[0] == Best(keys).value;
    } else {
      var prefix := keys[..n];
      BestMinimal(prefix);
      var i :| 0 <= i < n && prefix[i] == Best(prefix).value;
      assert keys[i] == prefix[i];
      forall j | 0 <= j < n
        ensures Best(prefix).value <= keys[j]
      {
        assert keys[j] == prefix[j];
      }
      if keys[n] < Best(prefix).value {
        assert Best(keys).value == keys[n];
      } else {
        assert Best(keys) == Best(prefix);
      }
    }
  }

  /** The items whose key is `m`, in their original order. */
  function Ties<T>(items: seq<T>, keys: seq<real>, m: real): (r: seq<T>)
    requires |items| == |keys|
    ensures |r| <= |items|
  {
    if items == [] then []
    else
      var n := |items| - 1;
      Ties(items[..n], keys[..n], m) + (if keys[n] == m then [items[n]] else [])
  }

  /** The items reaching the smallest key, in their original order. */
  function Survivors<T>(items: seq<T>, keys: seq<real>): seq<T>
    requires |items| == |keys|
  {
    if keys == [] then [] else Ties(items, keys, Best(keys).value)
  }

  /**
   * `Ties` is the filter itself: its entries are the items at strictly
   * increasing positions whose key is `m`, and every such position is one
   * of them.
   */
  lemma {:induction false} TiesIndices<T>(items: seq<T>, keys: seq<real>, m: real) returns (idx: seq<int>)
    requires |items| == |keys|
    ensures |idx| == |Ties(items, keys, m)|
    ensures forall j :: 0 <= j < |idx| ==>
              0 <= idx[j] < |items| && keys[idx[j]] == m && Ties(items, keys, m)[j] == items[idx[j]]
    ensures forall j, k :: 0 <= j < k < |idx| ==> idx[j] < idx[k]
    ensures forall i :: 0 <= i < |keys| && keys[i] == m ==> i in idx
  {
    if items == [] {
      idx := [];
    } else {
      var n := |items| - 1;
      var before := TiesIndices(items[..n], keys[..n], m);
      idx := before + (if keys[n] == m then [n] else []);
      var r := Ties(items, keys, m);
      assert r == Ties(items[..n], keys[..n], m) + (if keys[n] == m then [items[n]] else []);
      forall j | 0 <= j < |idx|
        ensures 0 <= idx[j] < |items| && keys[idx[j]] == m && r[j] == items[idx[j]]
      {
        if j < |before| {
          assert keys[..n][before[j]] == keys[before[j]];
          assert items[..n][before[j]] == items[before[j]];
        }
      }
      forall i | 0 <= i < |keys| && keys[i] == m
        ensures i in idx
      {
        if i < n {
          assert keys[..n][i] == m;
        }
      }
    }
  }

  /** An item is kept exactly when its key is `m`, and every item with key `m` is kept. */
  lemma TiesMembers<T>(items: seq<T>, keys: seq<real>, m: real)
    requires |items| == |keys|
    ensures (exists i :: 0 <= i < |keys| && keys[i] == m) <==> Ties(items, keys, m) != []
    ensures forall j :: 0 <= j < |Ties(items, keys, m)| ==>
              exists i :: 0 <= i < |items| && keys[i] == m && Ties(items, keys, m)[j] == items[i]
    ensures forall i :: 0 <= i < |keys| && keys[i] == m ==> items[i] in Ties(items, keys, m)
  {
    var r := Ties(items, keys, m);
    var idx := TiesIndices(items, keys, m);
    forall j | 0 <= j < |r|
      ensures exists i :: 0 <= i < |items| && keys[i] == m && r[j] == items[i]
    {
      assert keys[idx[j]] == m && r[j] == items[idx[j]];
    }
    forall i | 0 <= i < |keys| && keys[i] == m
      ensures items[i] in r
    {
      var j :| 0 <= j < |idx| && idx[j] == i;
      assert r[j] == items[i];
    }
    if r != [] {
      assert keys[idx[0]] == m;
    }
  }

  /**
   * At least one item survives whenever there is any, every survivor reaches
   * the smallest key, and every item reaching it survives.
   */
  lemma SurvivorsMinimal<T>(items: seq<T>, keys: seq<real>)
    requires |items| == |keys|
    ensures Survivors(items, keys) == [] <==> items == []
    ensures items != [] ==>
              forall j :: 0 <= j < |Survivors(items, keys)| ==>
                exists i :: && 0 <= i < |items| && Survivors(items, keys)[j] == items[i]
                            && forall k :: 0 <= k < |keys| ==> keys[i] <= keys[k]
    ensures forall i :: 0 <= i < |keys| && (forall k :: 0 <= k < |keys| ==> keys[i] <= keys[k]) ==>
              items[i] in Survivors(items, keys)
  {
    if items != [] {
      BestMinimal(keys);
      TiesMembers(items, keys, Best(keys).value);
      var b :| 0 <= b < |keys| && keys[b] == Best(keys).value;
      forall i | 0 <= i < |keys| && (forall k :: 0 <= k < |keys| ==> keys[i] <= keys[k])
        ensures items[i] in Survivors(items, keys)
      {
        assert keys[i] <= keys[b];
      }
    }
  }

  lemma {:induction false} TiesAbsent<T>(items: seq<T>, keys: seq<real>, m: real)
    requires |items| == |keys| && forall i :: 0 <= i < |keys| ==> keys[i] != m
    ensures Ties(items, keys, m) == []
  {
    if items != [] {
      var n := |items| - 1;
      TiesAbsent(items[..n], keys[..n], m);
    }
  }

  lemma TiesAppend<T>(items: seq<T>, keys: seq<real>, item: T, key: real, m: real)
    requires |items| == |keys|
    ensures Ties(items + [item], keys + [key], m) == Ties(items, keys, m) + (if key == m then [item] else [])
  {
    assert (items + [item])[..|items|] == items;
    assert (keys + [key])[..|keys|] == keys;
  }

  /** `best` and `kept` are what the rule has computed over `keys` so far. */
  ghost predicate Tracks<T>(best: Option<real>, kept: seq<T>, items: seq<T>, keys: seq<real>)
    requires |items| == |keys|
  {
    best == Best(keys) && kept == Survivors(items, keys)
  }

  /**
   * One step of the source's loop keeps the specification: a key below the
   * best so far starts a new list, an equal key is appended, a larger one
   * leaves both the best and the list alone.
   */
  lemma KeepStep<T>(best: Option<real>, kept: seq<T>, items: seq<T>, keys: seq<real>, item: T, key: real)
    requires |items| == |keys| && Tracks(best, kept, items, keys)
    ensures best.None? || key < best.value ==> Tracks(Some(key), [item], items + [item], keys + [key])
    ensures best.Some? && key == best.value ==> Tracks(best, kept + [item], items + [item], keys + [key])
    ensures best.Some? && key > best.value ==> Tracks(best, kept, items + [item], keys + [key])
  {
    assert (keys + [key])[..|keys|] == keys;
    TiesAppend(items, keys, item, key, Best(keys + [key]).value);
    if best.None? || key < best.value {
      if keys != [] {
        BestMinimal(keys);
      }
      TiesAbsent(items, keys, key);
      assert [] + [item] == [item];
    }
  }

  /**
   * The update both stages make per candidate (lines 139-144 and 177-182):
   * the kept list and best key afterwards are those of the specification
   * over one more candidate.
   */
  method Keep<T>(best: Option<real>, kept: seq<T>, ghost items: seq<T>, ghost keys: seq<real>, item: T, key: real)
    returns (newBest: Option<real>, newKept: seq<T>)
    requires |items| == |keys| && Tracks(best, kept, items, keys)
    ensures Tracks(newBest, newKept, items + [item], keys + [key])
  {
    KeepStep(best, kept, items, keys, item, key);
    if best.None? || key < best.value {
      newBest, newKept := Some(key), [item];
    } else if key == best.value {
      newBest, newKept := best, kept + [item];
    } else {
      newBest, newKept := best, kept;
    }
  }

  // ---------------------------------------------------------------------
  // Stage 1

  /**
   * A finished trial: its schedule is tallied for every doctor, walks the
   * headcounts of every night the zip reaches, and is the expansion of one
   * valid draw per night from the pool its history left.
   */
  ghost predicate Feasible(c: Candidate, doctors: seq<string>, days: seq<Date>, weights: map<Date, int>, counts: seq<int>) {
    && Tallied(c.points, c.schedule, doctors)
    && |c.schedule| == Sum(counts[..Nights(days, counts)])
    && (forall a :: a in c.schedule ==> a.day in days && a.day in weights && a.halfPoints == weights[a.day])
    && (forall d :: d in days ==> d in weights)
    && exists nights :: && |nights| == Nights(days, counts) && DrawsMatch(doctors, days, weights, counts, nights)
                        && c.schedule == Expand(days, weights, nights)
  }

  /**
   * `fault` is the ValueError of `random.sample` on a night the zip reaches:
   * after valid draws on the nights before it, that night's headcount is
   * negative or exceeds the doctors its history leaves.
   */
  ghost predicate Blocked(doctors: seq<string>, days: seq<Date>, weights: map<Date, int>, counts: seq<int>, fault: Fault) {
    && (forall d :: d in days ==> d in weights)
    && exists nights :: && |nights| < Nights(days, counts) && DrawsMatch(doctors, days, weights, counts, nights)
                        && fault == SampleTooLarge(|nights|)
                        && (counts[|nights|] < 0 || counts[|nights|] > |Pool(doctors, ShiftsOf(Expand(days, weights, nights)))|)
  }

  /**
   * Draws that match, as every feasible trial's do, respect the cooldown of
   * lines 126-128: each night holds its headcount of listed doctors, none of
   * them in the look-back window of the triples before, all distinct when
   * the doctors are.
   */
  lemma DrawsRespectCooldown(doctors: seq<string>, days: seq<Date>, weights: map<Date, int>, counts: seq<int>,
                             nights: seq<seq<string>>)
    requires |nights| <= |days| && forall d :: d in days ==> d in weights
    requires DrawsMatch(doctors, days, weights, counts, nights)
    ensures forall i :: 0 <= i < |nights| ==>
              && |nights[i]| == counts[i]
              && (forall x :: x in nights[i] ==>
                    x in doctors && x !in Excluded(ShiftsOf(Expand(days, weights, nights[..i])), |doctors|))
              && (NoDup(doctors) ==> NoDup(nights[i]))
  {
    forall i | 0 <= i < |nights|
      ensures && |nights[i]| == counts[i]
              && (forall x :: x in nights[i] ==>
                    x in doctors && x !in Excluded(ShiftsOf(Expand(days, weights, nights[..i])), |doctors|))
              && (NoDup(doctors) ==> NoDup(nights[i]))
    {
      DrawProperties(nights[i], counts[i], doctors, ShiftsOf(Expand(days, weights, nights[..i])));
    }
  }

  ghost predicate AllFeasible(trials: seq<Candidate>, doctors: seq<string>, days: seq<Date>, weights: map<Date, int>, counts: seq<int>) {
    forall i :: 0 <= i < |trials| ==> Feasible(trials[i], doctors, days, weights, counts)
  }

  /** Every trial holds a points entry for every doctor. */
  ghost predicate PointsFor(trials: seq<Candidate>, doctors: seq<string>) {
    forall i :: 0 <= i < |trials| ==> forall d :: d in doctors ==> d in trials[i].points
  }

  /** A trial's stage-1 key: `max(points.values()) - min(points.values())` in points, half-points halved. */
  function Stage1Key(c: Candidate, doctors: seq<string>): real
    requires |doctors| > 0 && forall d :: d in doctors ==> d in c.points
  {
    PointSpread(c, doctors) as real / 2.0
  }

  lemma FeasibleAppend(trials: seq<Candidate>, c: Candidate, doctors: seq<string>, days: seq<Date>, weights: map<Date, int>, counts: seq<int>)
    requires AllFeasible(trials, doctors, days, weights, counts) && Feasible(c, doctors, days, weights, counts)
    ensures AllFeasible(trials + [c], doctors, days, weights, counts)
  {
    forall i | 0 <= i < |trials| + 1
      ensures Feasible((trials + [c])[i], doctors, days, weights, counts)
    {
      if i < |trials| {
        assert (trials + [c])[i] == trials[i];
      }
    }
  }

  lemma PointsForAppend(trials: seq<Candidate>, c: Candidate, doctors: seq<string>)
    requires PointsFor(trials, doctors) && forall d :: d in doctors ==> d in c.points
    ensures PointsFor(trials + [c], doctors)
  {
    forall i | 0 <= i < |trials| + 1
      ensures forall d :: d in doctors ==> d in (trials + [c])[i].points
    {
      if i < |trials| {
        assert (trials + [c])[i] == trials[i];
      }
    }
  }

  /** Trial `c` has schedule `schedule` and stage-1 key `key`. */
  ghost predicate Keyed(c: Candidate, schedule: seq<Assignment>, key: real, doctors: seq<string>) {
    && |doctors| > 0 && (forall d :: d in doctors ==> d in c.points)
    && schedule == c.schedule && key == Stage1Key(c, doctors)
  }

  /** One more keyed trial keeps every trial so far keyed. */
  lemma KeyedAppend(trials: seq<Candidate>, items: seq<seq<Assignment>>, keys: seq<real>, c: Candidate, key: real,
                    doctors: seq<string>)
    requires |items| == |trials| && |keys| == |trials|
    requires forall j {:trigger Keyed(trials[j], items[j], keys[j], doctors)} ::
               0 <= j < |trials| ==> Keyed(trials[j], items[j], keys[j], doctors)
    requires Keyed(c, c.schedule, key, doctors)
    ensures forall j {:trigger Keyed((trials + [c])[j], (items + [c.schedule])[j], (keys + [key])[j], doctors)} ::
              0 <= j <= |trials| ==> Keyed((trials + [c])[j], (items + [c.schedule])[j], (keys + [key])[j], doctors)
  {
    forall j | 0 <= j <= |trials|
      ensures Keyed((trials + [c])[j], (items + [c.schedule])[j], (keys + [key])[j], doctors)
    {
      if j < |trials| {
        assert Keyed(trials[j], items[j], keys[j], doctors);
      }
    }
  }

  /** The run's trial for one iteration of `for i in range(find)`, with the headcounts the zip reaches. */
  method TrialOf(doctors: seq<string>, days: seq<Date>, weights: map<Date, int>, counts: seq<int>,
                 rand: nat -> nat, cursor: nat)
    returns (r: Result<Candidate, Fault>, next: nat)
    requires forall d :: d in days ==> d in weights
    ensures r.Ok? ==> Feasible(r.value, doctors, days, weights, counts)
    ensures r.Err? ==> Blocked(doctors, days, weights, counts, r.error)
  {
    var nights;
    r, nights, next := RunTrial(doctors, days, weights, counts, rand, cursor);
    assert DrawsMatch(doctors, days, weights, counts, nights);
    if r.Ok? {
      ExpandWeights(days, weights, nights);
      forall a | a in r.value.schedule
        ensures a.day in days
      {
        assert a.day in days[..|nights|];
      }
    }
  }

  /**
   * Lines 113-144: run `find` trials, keep the best spread and every
   * schedule reaching it. A failing draw ends the whole request. The ghost
   * outputs are the trials run, their schedules and their keys.
   */
  method StageOne(doctors: seq<string>, days: seq<Date>, weights: map<Date, int>, counts: seq<int>,
                  find: int, rand: nat -> nat, cursor: nat)
    returns (r: Result<seq<seq<Assignment>>, Fault>, bestDifference: Option<real>, next: nat,
             ghost trials: seq<Candidate>, ghost items: seq<seq<Assignment>>, ghost keys: seq<real>)
    requires |doctors| > 0 && forall d :: d in days ==> d in weights
    ensures AllFeasible(trials, doctors, days, weights, counts) && PointsFor(trials, doctors)
    ensures |items| == |trials| && |keys| == |trials|
    ensures forall j {:trigger Keyed(trials[j], items[j], keys[j], doctors)} ::
              0 <= j < |trials| ==> Keyed(trials[j], items[j], keys[j], doctors)
    ensures r.Err? ==> Blocked(doctors, days, weights, counts, r.error) && |trials| < find
    ensures r.Ok? ==>
              && |trials| == (if find < 0 then 0 else find)
              && bestDifference == Best(keys)
              && r.value == Survivors(items, keys)
  {
    var best: Option<real> := None;
    var kept: seq<seq<Assignment>> := [];
    trials, items, keys := [], [], [];
    next := cursor;
    bestDifference := None;
    var i := 0;
    while i < find
      invariant 0 <= i <= (if find < 0 then 0 else find) && |trials| == i
      invariant AllFeasible(trials, doctors, days, weights, counts) && PointsFor(trials, doctors)
      invariant |items| == i && |keys| == i
      invariant forall j {:trigger Keyed(trials[j], items[j], keys[j], doctors)} :: 0 <= j < i ==> Keyed(trials[j], items[j], keys[j], doctors)
      invariant Tracks(best, kept, items, keys)
    {
      var trial, after := TrialOf(doctors, days, weights, counts, rand, next);
      if trial.Err? {
        return Err(trial.error), best, after, trials, items, keys;
      }
      next := after;
      var c := trial.value;
      var difference := PointSpread(c, doctors) as real / 2.0;
      best, kept := Keep(best, kept, items, keys, c.schedule, difference);
      FeasibleAppend(trials, c, doctors, days, weights, counts);
      PointsForAppend(trials, c, doctors);
      KeyedAppend(trials, items, keys, c, difference, doctors);
      trials, items, keys := trials + [c], items + [c.schedule], keys + [difference];
      i := i + 1;
    }
    bestDifference := best;
    r := Ok(kept);
  }

  // ---------------------------------------------------------------------
  // Stage 2

  /** Schedule `schedule` is one stage 2 can score, and `total` is its stage-2 total. */
  ghost predicate Ranked(schedule: seq<Assignment>, total: real) {
    Scorable(schedule) && total == Stage2Score(schedule)
  }

  /** One more schedule scored keeps every total so far ranked. */
  lemma RankedAppend(kept: seq<seq<Assignment>>, totals: seq<real>, total: real)
    requires |totals| < |kept|
    requires forall j {:trigger Ranked(kept[j], totals[j])} :: 0 <= j < |totals| ==> Ranked(kept[j], totals[j])
    requires Ranked(kept[|totals|], total)
    ensures forall j {:trigger Ranked(kept[j], (totals + [total])[j])} :: 0 <= j <= |totals| ==>
              Ranked(kept[j], (totals + [total])[j])
  {
    forall j | 0 <= j <= |totals|
      ensures Ranked(kept[j], (totals + [total])[j])
    {
      if j < |totals| {
        assert Ranked(kept[j], totals[j]);
      }
    }
  }

  /** Schedules with ranked totals are scorable. */
  lemma RankedScorable(kept: seq<seq<Assignment>>, totals: seq<real>)
    requires |totals| <= |kept|
    requires forall j {:trigger Ranked(kept[j], totals[j])} :: 0 <= j < |totals| ==> Ranked(kept[j], totals[j])
    ensures forall j :: 0 <= j < |totals| ==> Scorable(kept[j])
  {
    forall j | 0 <= j < |totals|
      ensures Scorable(kept[j])
    {
      assert Ranked(kept[j], totals[j]);
    }
  }

  /**
   * Lines 152-174, schedule by schedule: the stage-2 total of each kept
   * schedule, or the fault of the first one stage 2 cannot score.
   */
  method ScoreAll(kept: seq<seq<Assignment>>) returns (r: Result<seq<real>, Fault>)
    ensures r.Ok? <==> forall i :: 0 <= i < |kept| ==> Scorable(kept[i])
    ensures r.Err? ==>
              exists i :: && 0 <= i < |kept| && !Scorable(kept[i]) && r.error == ScoreFault(kept[i])
                          && forall j :: 0 <= j < i ==> Scorable(kept[j])
    ensures r.Ok? ==>
              && |r.value| == |kept|
              && forall j {:trigger Ranked(kept[j], r.value[j])} :: 0 <= j < |kept| ==> Ranked(kept[j], r.value[j])
  {
    var totals: seq<real> := [];
    for i := 0 to |kept|
      invariant |totals| == i
      invariant forall j {:trigger Ranked(kept[j], totals[j])} :: 0 <= j < i ==> Ranked(kept[j], totals[j])
    {
      var total := ScoreSchedule(kept[i]);
      if total.Err? {
        RankedScorable(kept, totals);
        return Err(total.error);
      }
      RankedAppend(kept, totals, total.value);
      totals := totals + [total.value];
    }
    RankedScorable(kept, totals);
    r := Ok(totals);
  }

  /**
   * Lines 177-182 over a whole run: the replace/append rule applied to the
   * candidates in order leaves the smallest key and the candidates reaching it.
   */
  method Select<T>(items: seq<T>, keys: seq<real>) returns (best: Option<real>, kept: seq<T>)
    requires |items| == |keys|
    ensures best == Best(keys) && kept == Survivors(items, keys)
  {
    best, kept := None, [];
    for i := 0 to |items|
      invariant Tracks(best, kept, items[..i], keys[..i])
    {
      best, kept := Keep(best, kept, items[..i], keys[..i], items[i], keys[i]);
      assert items[..i + 1] == items[..i] + [items[i]];
      assert keys[..i + 1] == keys[..i] + [keys[i]];
    }
    assert items[..|items|] == items && keys[..|keys|] == keys;
  }

  /** The outcome of stage 2: `optimal_schedules` and `score`. */
  datatype Ranking = Ranking(optimal: seq<seq<Assignment>>, score: Option<real>)

  /**
   * Lines 147-182: score every kept schedule and keep the ones with the
   * smallest total. The first schedule stage 2 cannot score ends the
   * request. The ghost output holds the totals.
   */
  method StageTwo(kept: seq<seq<Assignment>>) returns (r: Result<Ranking, Fault>, ghost keys: seq<real>)
    ensures r.Ok? <==> forall i :: 0 <= i < |kept| ==> Scorable(kept[i])
    ensures r.Err? ==>
              exists i :: && 0 <= i < |kept| && !Scorable(kept[i]) && r.error == ScoreFault(kept[i])
                          && forall j :: 0 <= j < i ==> Scorable(kept[j])
    ensures r.Ok? ==>
              && |keys| == |kept|
              && (forall j {:trigger Ranked(kept[j], keys[j])} :: 0 <= j < |kept| ==> Ranked(kept[j], keys[j]))
              && r.value.score == Best(keys)
              && r.value.optimal == Survivors(kept, keys)
  {
    var totals := ScoreAll(kept);
    if totals.Err? {
      return Err(totals.error), [];
    }
    var differences := totals.value;
    var minDifference, optimal := Select(kept, differences);
    keys := differences;
    r := Ok(Ranking(optimal, minDifference));
  }
}
