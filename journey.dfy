/**
 * The milestone tracker of src/lib/spiritual-journey.ts: the catalog, the migration of the
 * stored list, the clamped and rounded progress percentage with its permanent achieved
 * flag, and the choice of the next milestone to show.
 */
module Journey {
  import opened Wrappers
  import Sorting

  /** A milestone as stored: a catalog entry plus its achieved flag and percentage. */
  datatype Milestone = Milestone(
    id: string,
    title: string,
    description: string,
    requiredCount: Option<nat>,
    requiredStreak: Option<nat>,
    requiredDays: Option<nat>,
    isAchieved: bool,
    progress: int)

  /** A catalog entry: a milestone without its flag and percentage. */
  datatype CatalogEntry = CatalogEntry(
    id: string,
    title: string,
    description: string,
    requiredCount: Option<nat>,
    requiredStreak: Option<nat>,
    requiredDays: Option<nat>)

  const CATALOG: seq<CatalogEntry> := [
    CatalogEntry("FIRST_STEP", "First Step",
      "Begin your spiritual journey with your first mantra", Some(1), None, None),
    CatalogEntry("DAILY_PRACTICE", "Daily Practice",
      "Complete 7 consecutive days of mantra chanting", None, Some(7), None),
    CatalogEntry("HABIT_FORMATION", "Habit Formation",
      "Maintain your practice for 21 consecutive days", None, Some(21), None),
    CatalogEntry("SACRED_108", "Sacred 108",
      "Complete 108 mantras in your spiritual journey", Some(108), None, None),
    CatalogEntry("SPIRITUAL_DEDICATION", "Spiritual Dedication",
      "Reach 1,008 total mantras in your practice", Some(1008), None, None),
    CatalogEntry("DEEP_DEVOTION", "Deep Devotion",
      "Achieve 10,008 mantras in your lifetime practice", Some(10008), None, None),
    CatalogEntry("MONTHLY_DEVOTEE", "Monthly Devotee",
      "Practice mantra chanting for 30 consecutive days", None, Some(30), None),
    CatalogEntry("SPIRITUAL_MASTER", "Spiritual Master",
      "Complete 108 days of consecutive practice", None, Some(108), None),
    CatalogEntry("ENLIGHTENMENT_PATH", "Enlightenment Path",
      "Practice for 365 days, creating a foundation for enlightenment", None, None, Some(365))
  ]

  /** JavaScript truthiness of an optional number: present and not zero. */
  predicate Truthy(o: Option<nat>)
  {
    o.Some? && o.value != 0
  }

  /** The catalog has 9 entries with distinct ids, each setting exactly one positive requirement. */
  lemma CatalogWellFormed()
    ensures |CATALOG| == 9
    ensures forall i, j :: 0 <= i < j < |CATALOG| ==> CATALOG[i].id != CATALOG[j].id
    ensures forall i :: 0 <= i < |CATALOG| ==>
      (if Truthy(CATALOG[i].requiredCount) then 1 else 0)
      + (if Truthy(CATALOG[i].requiredStreak) then 1 else 0)
      + (if Truthy(CATALOG[i].requiredDays) then 1 else 0) == 1
    ensures forall i :: 0 <= i < |CATALOG| ==>
      CATALOG[i].requiredCount.None? || CATALOG[i].requiredStreak.None? || CATALOG[i].requiredDays.None?
  {
  }

  /** A catalog entry as first stored: not achieved, no progress. */
  function Fresh(c: CatalogEntry): Milestone
  {
    Milestone(c.id, c.title, c.description, c.requiredCount, c.requiredStreak, c.requiredDays, false, 0)
  }

  function Ids(ms: seq<Milestone>): seq<string>
  {
    seq(|ms|, i requires 0 <= i < |ms| => ms[i].id)
  }

  /** The fresh milestones of the catalog entries whose id is not in `ids`, in catalog order. */
  function Missing(catalog: seq<CatalogEntry>, ids: seq<string>): seq<Milestone>
  {
    if catalog == [] then []
    else
      (if catalog[0].id in ids then [] else [Fresh(catalog[0])]) + Missing(catalog[1..], ids)
  }

  /** The list `getUserJourneyMilestones` returns and leaves stored. */
  function Migrated(stored: Option<seq<Milestone>>): seq<Milestone>
  {
    match stored
    case None => Missing(CATALOG, [])
    case Some(ms) => ms + Missing(CATALOG, Ids(ms))
  }

  lemma {:induction false} MissingExactly(catalog: seq<CatalogEntry>, ids: seq<string>, m: Milestone)
    ensures m in Missing(catalog, ids) <==>
      exists i :: 0 <= i < |catalog| && catalog[i].id !in ids && m == Fresh(catalog[i])
  {
    if catalog != [] {
      MissingExactly(catalog[1..], ids, m);
      if exists i :: 0 <= i < |catalog| && catalog[i].id !in ids && m == Fresh(catalog[i]) {
        var i :| 0 <= i < |catalog| && catalog[i].id !in ids && m == Fresh(catalog[i]);
        if i > 0 { assert catalog[1..][i - 1] == catalog[i]; }
      }
      if m in Missing(catalog[1..], ids) {
        var i :| 0 <= i < |catalog[1..]| && catalog[1..][i].id !in ids && m == Fresh(catalog[1..][i]);
        assert catalog[i + 1] == catalog[1..][i];
      }
    }
  }

  lemma {:induction false} MissingNone(catalog: seq<CatalogEntry>, ids: seq<string>)
    ensures Missing(catalog, ids) == []
        <==> forall i :: 0 <= i < |catalog| ==> catalog[i].id in ids
  {
    if catalog != [] {
      MissingNone(catalog[1..], ids);
      assert forall i :: 0 < i < |catalog| ==> catalog[i] == catalog[1..][i - 1];
    }
  }

  lemma {:induction false} MissingAll(catalog: seq<CatalogEntry>)
    ensures |Missing(catalog, [])| == |catalog|
    ensures forall i :: 0 <= i < |catalog| ==> Missing(catalog, [])[i] == Fresh(catalog[i])
  {
    if catalog != [] {
      var rest := Missing(catalog[1..], []);
      MissingAll(catalog[1..]);
      var r := Missing(catalog, []);
      assert r == [Fresh(catalog[0])] + rest;
      forall i | 0 < i < |catalog|
        ensures r[i] == Fresh(catalog[i])
      {
        assert r[i] == rest[i - 1];
        assert catalog[1..][i - 1] == catalog[i];
      }
    }
  }

  /** The first read stores every catalog entry, in order, not achieved and at 0 progress. */
  lemma FirstAccess()
    ensures var r := Migrated(None);
      |r| == |CATALOG|
      && forall i :: 0 <= i < |r| ==> r[i] == Fresh(CATALOG[i]) && !r[i].isAchieved && r[i].progress == 0
  {
    MissingAll(CATALOG);
  }

  /** After appending the missing entries, every id of the catalog is present. */
  lemma CoveredAfter(catalog: seq<CatalogEntry>, ms: seq<Milestone>)
    ensures forall i :: 0 <= i < |catalog| ==> catalog[i].id in Ids(ms + Missing(catalog, Ids(ms)))
  {
    var r := ms + Missing(catalog, Ids(ms));
    forall i | 0 <= i < |catalog| ensures catalog[i].id in Ids(r) {
      if catalog[i].id !in Ids(ms) {
        MissingExactly(catalog, Ids(ms), Fresh(catalog[i]));
        var k :| 0 <= k < |r| - |ms| && r[|ms|..][k] == Fresh(catalog[i]);
        assert Ids(r)[|ms| + k] == catalog[i].id;
      } else {
        var k :| 0 <= k < |ms| && Ids(ms)[k] == catalog[i].id;
        assert Ids(r)[k] == catalog[i].id;
      }
    }
  }

  /** The entries stored on first access hold every id of the catalog. */
  lemma CoveredFresh(catalog: seq<CatalogEntry>)
    ensures forall i :: 0 <= i < |catalog| ==> catalog[i].id in Ids(Missing(catalog, []))
  {
    var none: seq<Milestone> := [];
    assert Ids(none) == [];
    CoveredAfter(catalog, none);
    assert none + Missing(catalog, []) == Missing(catalog, []);
  }

  /** A list that already holds every catalog id gains nothing. */
  lemma NothingMissing(catalog: seq<CatalogEntry>, ms: seq<Milestone>)
    requires forall i :: 0 <= i < |catalog| ==> catalog[i].id in Ids(ms)
    ensures ms + Missing(catalog, Ids(ms)) == ms
  {
    MissingNone(catalog, Ids(ms));
  }

  /**
   * A stored list is kept as it is, in front; only catalog entries whose id it lacks are
   * appended, fresh; afterwards every catalog id is present.
   */
  lemma MigratedKeepsStored(ms: seq<Milestone>, m: Milestone)
    ensures |Migrated(Some(ms))| >= |ms| && Migrated(Some(ms))[..|ms|] == ms
    ensures m in Migrated(Some(ms))[|ms|..] <==>
      exists i :: 0 <= i < |CATALOG| && CATALOG[i].id !in Ids(ms) && m == Fresh(CATALOG[i])
    ensures forall i :: 0 <= i < |CATALOG| ==> CATALOG[i].id in Ids(Migrated(Some(ms)))
  {
    var r := Migrated(Some(ms));
    assert r[|ms|..] == Missing(CATALOG, Ids(ms));
    MissingExactly(CATALOG, Ids(ms), m);
    CoveredAfter(CATALOG, ms);
  }

  /** Migration is idempotent: a migrated list gains nothing on the next read. */
  lemma MigratedIdempotent(stored: Option<seq<Milestone>>)
    ensures Migrated(Some(Migrated(stored))) == Migrated(stored)
  {
    match stored
    case None =>
      CoveredFresh(CATALOG);
      NothingMissing(CATALOG, Migrated(stored));
    case Some(ms) =>
      CoveredAfter(CATALOG, ms);
      NothingMissing(CATALOG, Migrated(stored));
  }

  // ---------------------------------------------------------------- progress

  /** The stats `updateMilestoneProgress` is given. */
  datatype JourneyStats = JourneyStats(totalCount: nat, streak: nat, practiceDays: Option<nat>)

  function MinReal(a: real, b: real): real { if a <= b then a else b }

  /** `stats.practiceDays || Math.min(stats.totalCount / 10, stats.streak)`, exactly. */
  function PracticeDays(s: JourneyStats): real
  {
    if Truthy(s.practiceDays) then s.practiceDays.value as real
    else MinReal(s.totalCount as real / 10.0, s.streak as real)
  }

  /** A `practiceDays` of 0 counts as missing: both fall back to the estimate. */
  lemma ZeroPracticeDaysFallsBack(total: nat, streak: nat)
    ensures PracticeDays(JourneyStats(total, streak, Some(0)))
         == PracticeDays(JourneyStats(total, streak, None))
         == MinReal(total as real / 10.0, streak as real)
  {
  }

  /** `Math.min((value / required) * 100, 100)`. */
  function Ratio(value: real, required: nat): real
    requires required > 0
  {
    MinReal(value / required as real * 100.0, 100.0)
  }

  /** `Math.round` on a non-negative number: halves go up. */
  function Round(x: real): int
  {
    (x + 0.5).Floor
  }

  /** The percentage before rounding, by the first truthy requirement. */
  function RawProgress(m: Milestone, s: JourneyStats): real
  {
    if Truthy(m.requiredCount) then Ratio(s.totalCount as real, m.requiredCount.value)
    else if Truthy(m.requiredStreak) then Ratio(s.streak as real, m.requiredStreak.value)
    else if Truthy(m.requiredDays) then Ratio(PracticeDays(s), m.requiredDays.value)
    else 0.0
  }

  /** Whether the stats meet the milestone's first truthy requirement. */
  predicate Reaches(m: Milestone, s: JourneyStats)
  {
    if Truthy(m.requiredCount) then s.totalCount >= m.requiredCount.value
    else if Truthy(m.requiredStreak) then s.streak >= m.requiredStreak.value
    else if Truthy(m.requiredDays) then PracticeDays(s) >= m.requiredDays.value as real
    else false
  }

  /** One milestone after the update: achieved stays achieved, progress is recomputed. */
  function Updated(m: Milestone, s: JourneyStats): Milestone
  {
    m.(isAchieved := m.isAchieved || Reaches(m, s), progress := Round(RawProgress(m, s)))
  }

  /** The milestones that flip from not achieved to achieved. */
  predicate Flips(m: Milestone, s: JourneyStats)
  {
    !m.isAchieved && Reaches(m, s)
  }

  /** The `milestones` of `updateMilestoneProgress`. */
  function UpdatedAll(ms: seq<Milestone>, s: JourneyStats): seq<Milestone>
  {
    if ms == [] then [] else UpdatedAll(ms[..|ms| - 1], s) + [Updated(ms[|ms| - 1], s)]
  }

  /** The `newlyAchieved` of `updateMilestoneProgress`, in list order. */
  function NewlyAchieved(ms: seq<Milestone>, s: JourneyStats): seq<Milestone>
  {
    if ms == [] then []
    else
      var last := ms[|ms| - 1];
      NewlyAchieved(ms[..|ms| - 1], s) + (if Flips(last, s) then [Updated(last, s)] else [])
  }

  /** The rounded percentage of `a` out of `b`, capped at 100, in integers. */
  function IntegerPercent(a: nat, b: nat): int
    requires b > 0
  {
    if a >= b then 100 else (200 * a + b) / (2 * b)
  }

  lemma FloorOfQuotient(y: real, p: nat, q: nat)
    requires q > 0 && y * (q as real) == p as real
    ensures y.Floor == p / q
  {
    var k := p / q;
    assert p == k * q + p % q;
    assert (k as real) * (q as real) <= y * (q as real);
    assert y * (q as real) < ((k + 1) as real) * (q as real);
  }

  lemma QuotientTimes(x: real, b: nat)
    requires b > 0
    ensures x / (b as real) * (b as real) == x
  {
  }

  /** At or past the requirement the percentage is exactly 100. */
  lemma RatioFull(x: real, b: nat)
    requires b > 0 && x >= b as real
    ensures Ratio(x, b) == 100.0
  {
    var q := x / (b as real);
    QuotientTimes(x, b);
  }

  lemma RatioIsIntegerFormula(a: nat, b: nat)
    requires b > 0
    ensures Round(Ratio(a as real, b)) == IntegerPercent(a, b)
  {
    if a >= b {
      RatioFull(a as real, b);
    } else {
      RatioBelowFull(a, b);
    }
  }

  lemma RatioBelowFull(a: nat, b: nat)
    requires a < b
    ensures Round(Ratio(a as real, b)) == (200 * a + b) / (2 * b)
  {
    var q := a as real / b as real;
    QuotientTimes(a as real, b);
    assert q < 1.0 by {
      assert (1.0 - q) * (b as real) == (b - a) as real;
    }
    assert Ratio(a as real, b) == q * 100.0;
    var y := q * 100.0 + 0.5;
    assert y * ((2 * b) as real) == (200 * a + b) as real by {
      assert y * ((2 * b) as real) == 200.0 * (q * (b as real)) + (b as real);
    }
    FloorOfQuotient(y, 200 * a + b, 2 * b);
  }

  lemma RatioBounds(x: real, b: nat)
    requires b > 0 && x >= 0.0
    ensures 0 <= Round(Ratio(x, b)) <= 100
    ensures Round(Ratio(x, b)) == 100 <==> x >= (b as real) * 199.0 / 200.0
  {
    var r := Ratio(x, b);
    assert 0.0 <= x / b as real;
    assert 0.0 <= r <= 100.0;
    if x >= (b as real) * 199.0 / 200.0 {
      assert x / b as real >= 199.0 / 200.0;
    } else {
      assert x / b as real < 199.0 / 200.0;
    }
  }

  /**
   * Progress is `round(min(value / required * 100, 100))` for the first truthy requirement,
   * always in 0..100, and for the count and streak requirements equal to the integer
   * formula `(200 a + b) div 2 b` below the requirement and 100 at or above it.
   */
  lemma UpdatedProgress(m: Milestone, s: JourneyStats)
    ensures 0 <= Updated(m, s).progress <= 100
    ensures Truthy(m.requiredCount) ==>
      Updated(m, s).progress == IntegerPercent(s.totalCount, m.requiredCount.value)
    ensures !Truthy(m.requiredCount) && Truthy(m.requiredStreak) ==>
      Updated(m, s).progress == IntegerPercent(s.streak, m.requiredStreak.value)
    ensures (!Truthy(m.requiredCount) && !Truthy(m.requiredStreak) && Truthy(m.requiredDays)
      && Truthy(s.practiceDays)) ==>
      Updated(m, s).progress == IntegerPercent(s.practiceDays.value, m.requiredDays.value)
    ensures !Truthy(m.requiredCount) && !Truthy(m.requiredStreak) && !Truthy(m.requiredDays)
      ==> Updated(m, s).progress == 0 && !Reaches(m, s)
    ensures Reaches(m, s) ==> Updated(m, s).progress == 100 && RawProgress(m, s) == 100.0
  {
    if Truthy(m.requiredCount) {
      RatioIsIntegerFormula(s.totalCount, m.requiredCount.value);
      RatioBounds(s.totalCount as real, m.requiredCount.value);
      if Reaches(m, s) { RatioFull(s.totalCount as real, m.requiredCount.value); }
    } else if Truthy(m.requiredStreak) {
      RatioIsIntegerFormula(s.streak, m.requiredStreak.value);
      RatioBounds(s.streak as real, m.requiredStreak.value);
      if Reaches(m, s) { RatioFull(s.streak as real, m.requiredStreak.value); }
    } else if Truthy(m.requiredDays) {
      if Truthy(s.practiceDays) {
        RatioIsIntegerFormula(s.practiceDays.value, m.requiredDays.value);
      }
      RatioBounds(PracticeDays(s), m.requiredDays.value);
      if Reaches(m, s) { RatioFull(PracticeDays(s), m.requiredDays.value); }
    } else {
      assert Round(0.0) == 0;
    }
  }

  /**
   * The update keeps ids, order and every field but the flag and the percentage; the flag
   * never goes from true to false, and goes to true exactly when the requirement is met.
   */
  lemma {:induction false} UpdatedAllShape(ms: seq<Milestone>, s: JourneyStats)
    ensures |UpdatedAll(ms, s)| == |ms|
    ensures forall i :: 0 <= i < |ms| ==> UpdatedAll(ms, s)[i] == Updated(ms[i], s)
    ensures forall i :: 0 <= i < |ms| ==>
      var u := UpdatedAll(ms, s)[i];
      && u.id == ms[i].id && u.requiredCount == ms[i].requiredCount
      && u.requiredStreak == ms[i].requiredStreak && u.requiredDays == ms[i].requiredDays
      && (u.isAchieved <==> ms[i].isAchieved || Reaches(ms[i], s))
      && 0 <= u.progress <= 100
  {
    if ms != [] {
      UpdatedAllShape(ms[..|ms| - 1], s);
      forall i | 0 <= i < |ms| ensures 0 <= Updated(ms[i], s).progress <= 100 {
        UpdatedProgress(ms[i], s);
      }
    }
  }

  /** `newlyAchieved` holds exactly the milestones whose flag flipped in this call. */
  lemma {:induction false} NewlyAchievedExactly(ms: seq<Milestone>, s: JourneyStats, m: Milestone)
    ensures m in NewlyAchieved(ms, s) <==>
      exists i :: 0 <= i < |ms| && Flips(ms[i], s) && m == Updated(ms[i], s)
    ensures m in NewlyAchieved(ms, s) ==> m.isAchieved && m.progress == 100
  {
    if ms != [] {
      var init := ms[..|ms| - 1];
      NewlyAchievedExactly(init, s, m);
      if exists i :: 0 <= i < |ms| && Flips(ms[i], s) && m == Updated(ms[i], s) {
        var i :| 0 <= i < |ms| && Flips(ms[i], s) && m == Updated(ms[i], s);
        if i < |ms| - 1 { assert init[i] == ms[i]; }
      }
      if m in NewlyAchieved(init, s) {
        var i :| 0 <= i < |init| && Flips(init[i], s) && m == Updated(init[i], s);
        assert ms[i] == init[i];
      }
      if m == Updated(ms[|ms| - 1], s) && Flips(ms[|ms| - 1], s) {
        UpdatedProgress(ms[|ms| - 1], s);
      }
    }
  }

  /** The positions of the milestones that flip, in list order. */
  function FlipIndices(ms: seq<Milestone>, s: JourneyStats): seq<nat>
  {
    if ms == [] then []
    else FlipIndices(ms[..|ms| - 1], s) + (if Flips(ms[|ms| - 1], s) then [|ms| - 1] else [])
  }

  /**
   * `newlyAchieved` has one entry per flipped milestone, in list order: entry `k` is the
   * updated milestone at the `k`-th flipping position, and the positions increase strictly
   * and are exactly the positions that flip.
   */
  lemma {:induction false} NewlyAchievedInOrder(ms: seq<Milestone>, s: JourneyStats)
    ensures var idx, na := FlipIndices(ms, s), NewlyAchieved(ms, s);
      && |idx| == |na|
      && (forall k :: 0 <= k < |idx| ==> idx[k] < |ms| && na[k] == Updated(ms[idx[k]], s))
      && (forall k, l :: 0 <= k < l < |idx| ==> idx[k] < idx[l])
      && (forall i :: 0 <= i < |ms| ==> (i in idx <==> Flips(ms[i], s)))
  {
    if ms != [] {
      var init, n := ms[..|ms| - 1], |ms|;
      NewlyAchievedInOrder(init, s);
      var idx0 := FlipIndices(init, s);
      assert forall k :: 0 <= k < |idx0| ==> ms[idx0[k]] == init[idx0[k]];
      assert forall i :: 0 <= i < n - 1 ==> ms[i] == init[i];
      assert n - 1 !in idx0;
    }
  }

  /** `newlyAchieved` is empty when no milestone flips. */
  lemma {:induction false} NoneNewlyAchieved(ms: seq<Milestone>, s: JourneyStats)
    requires forall i :: 0 <= i < |ms| ==> !Flips(ms[i], s)
    ensures NewlyAchieved(ms, s) == []
  {
    if ms != [] {
      NoneNewlyAchieved(ms[..|ms| - 1], s);
    }
  }

  /** A second update with the same stats reports nothing new. */
  lemma SecondUpdateNothingNew(ms: seq<Milestone>, s: JourneyStats)
    ensures NewlyAchieved(UpdatedAll(ms, s), s) == []
  {
    var u := UpdatedAll(ms, s);
    UpdatedAllShape(ms, s);
    forall i | 0 <= i < |u| ensures !Flips(u[i], s) {
      assert Reaches(u[i], s) == Reaches(ms[i], s);
    }
    NoneNewlyAchieved(u, s);
  }

  // ---------------------------------------------------------------- next milestone

  function Unachieved(ms: seq<Milestone>): seq<Milestone>
  {
    if ms == [] then []
    else (if ms[0].isAchieved then [] else [ms[0]]) + Unachieved(ms[1..])
  }

  function MilestoneProgress(m: Milestone): int { m.progress }

  /** `getNextMilestone` on a list: the head of the unachieved ones sorted by falling progress. */
  function NextMilestone(ms: seq<Milestone>): (next: Option<Milestone>)
    ensures next.None? <==> Unachieved(ms) == []
    ensures next.Some? ==> next.value in Unachieved(ms)
  {
    var u := Unachieved(ms);
    if u == [] then None
    else
      var sorted := Sorting.SortDesc(u, MilestoneProgress);
      assert sorted[0] in multiset(u);
      Some(sorted[0])
  }

  lemma {:induction false} UnachievedExactly(ms: seq<Milestone>, m: Milestone)
    ensures m in Unachieved(ms) <==> m in ms && !m.isAchieved
  {
    if ms != [] {
      UnachievedExactly(ms[1..], m);
      assert ms == [ms[0]] + ms[1..];
    }
  }

  /**
   * There is no next milestone exactly when all are achieved; otherwise it is an
   * unachieved milestone with the highest progress, the earliest such in list order.
   */
  lemma NextMilestoneChoice(ms: seq<Milestone>)
    ensures NextMilestone(ms).None? <==> forall i :: 0 <= i < |ms| ==> ms[i].isAchieved
    ensures NextMilestone(ms).Some? ==>
      var m := NextMilestone(ms).value;
      && m in ms && !m.isAchieved
      && (forall i :: 0 <= i < |ms| && !ms[i].isAchieved ==> ms[i].progress <= m.progress)
      && (exists k :: 0 <= k < |Unachieved(ms)| && Unachieved(ms)[k] == m
            && forall j :: 0 <= j < k ==> Unachieved(ms)[j].progress < m.progress)
  {
    var u := Unachieved(ms);
    if u == [] {
      forall i | 0 <= i < |ms| ensures ms[i].isAchieved {
        UnachievedExactly(ms, ms[i]);
      }
    } else {
      var k := Sorting.SortDescHead(u, MilestoneProgress);
      var m := u[k];
      UnachievedExactly(ms, m);
      forall i | 0 <= i < |ms| && !ms[i].isAchieved ensures ms[i].progress <= m.progress {
        UnachievedExactly(ms, ms[i]);
        var j :| 0 <= j < |u| && u[j] == ms[i];
      }
      assert forall j :: 0 <= j < k ==> MilestoneProgress(u[j]) < MilestoneProgress(u[k]);
    }
  }
}
