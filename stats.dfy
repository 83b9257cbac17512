/**
 * The records of src/lib/mantra-storage.ts and the pure logic behind its operations:
 * the stats record and its day-rollover reconciliation, the increment of the counters,
 * the bounded daily-record log, the achievement thresholds, the display settings and
 * the date-seeded daily content.
 */
module Stats {
  import opened Wrappers
  import opened Text
  import opened Calendar
  import Sorting

  /** `MantraStats`; `practiceDays` is optional in stored records written by older versions. */
  datatype MantraStats = MantraStats(
    todayCount: nat,
    totalCount: nat,
    streak: nat,
    lastChantDate: Date,
    achievements: seq<string>,
    practiceDays: Option<nat>)

  /** One entry of the daily-record log. */
  datatype DailyRecord = DailyRecord(date: Date, count: nat)

  /** The log keeps the records of this many most recent dates. */
  const MAX_RECORDS: nat := 30

  /** `initStats`: the record stored on first read. */
  function InitStats(today: Date): MantraStats
  {
    MantraStats(0, 0, 0, today, [], Some(0))
  }

  /** The day-rollover step of `getMantraStats` on a stored record. */
  function RollOver(s: MantraStats, today: Date): MantraStats
    requires ValidDate(today)
  {
    if s.lastChantDate == today then s
    else
      var daysDiff := DaysDiff(s.lastChantDate, today);
      var streak :=
        if daysDiff == Some(1) then s.streak
        else if daysDiff.Some? && daysDiff.value > 1 then 0
        else s.streak;
      s.(streak := streak, todayCount := 0, lastChantDate := today)
  }

  /**
   * What `getMantraStats` returns (and leaves stored): the initial record when nothing is
   * stored, otherwise the rolled-over record with a missing `practiceDays` backfilled from
   * the number of daily records.
   */
  function Reconcile(stored: Option<MantraStats>, today: Date, recordCount: nat): MantraStats
    requires ValidDate(today)
  {
    match stored
    case None => InitStats(today)
    case Some(s) =>
      var rolled := RollOver(s, today);
      if rolled.practiceDays.None? then rolled.(practiceDays := Some(recordCount)) else rolled
  }

  /** The stored streak after a rollover: cleared only when more than one day was skipped. */
  lemma ReconcileEffect(stored: Option<MantraStats>, today: Date, recordCount: nat)
    requires ValidDate(today)
    ensures var r := Reconcile(stored, today, recordCount);
      && r.lastChantDate == today
      && r.practiceDays.Some?
      && (stored.None? ==> r == MantraStats(0, 0, 0, today, [], Some(0)))
      && (stored.Some? ==>
            var s := stored.value;
            && r.totalCount == s.totalCount
            && r.achievements == s.achievements
            && r.todayCount == (if s.lastChantDate == today then s.todayCount else 0)
            && r.practiceDays == Some(s.practiceDays.GetOr(recordCount))
            && (if ValidDate(s.lastChantDate) && Before(NextDay(s.lastChantDate), today)
                then r.streak == 0
                else r.streak == s.streak))
  {
    if stored.Some? && stored.value.lastChantDate != today && ValidDate(stored.value.lastChantDate) {
      var last := stored.value.lastChantDate;
      DaysDiffAboveOneIffLater(last, today);
    }
  }

  /** A stored record that was already reconciled today is returned as it is. */
  lemma ReconcileIdempotent(stored: Option<MantraStats>, today: Date, recordCount: nat)
    requires ValidDate(today)
    ensures var r := Reconcile(stored, today, recordCount);
      Reconcile(Some(r), today, recordCount) == r
  {
  }

  // ---------------------------------------------------------------- daily-record log

  /** The sort key of a record: its date's midnight, in days. */
  function RecordDay(r: DailyRecord): int { DayNumber(r.date) }

  /** `dailyRecords.find(record => record.date === today)`, as an index. */
  function FindDate(log: seq<DailyRecord>, today: Date): (i: Option<nat>)
    ensures i.Some? ==> i.value < |log| && log[i.value].date == today
    ensures i.Some? ==> forall k :: 0 <= k < i.value ==> log[k].date != today
    ensures i.None? ==> forall k :: 0 <= k < |log| ==> log[k].date != today
  {
    if log == [] then None
    else if log[0].date == today then Some(0)
    else match FindDate(log[1..], today)
      case None => None
      case Some(j) => Some(j + 1)
  }

  /** Adds `n` to today's record, or appends a new record for today. */
  function Bump(log: seq<DailyRecord>, today: Date, n: nat): seq<DailyRecord>
  {
    match FindDate(log, today)
    case Some(i) => log[i := log[i].(count := log[i].count + n)]
    case None => log + [DailyRecord(today, n)]
  }

  /** `sort((a, b) => date(b) - date(a)).slice(0, 30)`. */
  function Trim(log: seq<DailyRecord>): seq<DailyRecord>
  {
    var sorted := Sorting.SortDesc(log, RecordDay);
    if |sorted| <= MAX_RECORDS then sorted else sorted[..MAX_RECORDS]
  }

  /** The log `updateMantraCount` stores. */
  function LogAfterIncrement(log: seq<DailyRecord>, today: Date, n: nat): seq<DailyRecord>
  {
    Trim(Bump(log, today, n))
  }

  /** The count today's record holds, 0 when there is none. */
  function CountOn(log: seq<DailyRecord>, today: Date): nat
  {
    match FindDate(log, today)
    case Some(i) => log[i].count
    case None => 0
  }

  predicate AllDatesValid(log: seq<DailyRecord>)
  {
    forall i :: 0 <= i < |log| ==> ValidDate(log[i].date)
  }

  /** The stored log's invariant: valid dates, strictly newest first (so no date twice), at most 30. */
  predicate ValidLog(log: seq<DailyRecord>)
  {
    AllDatesValid(log) && Sorting.StrictlyDesc(log, RecordDay) && |log| <= MAX_RECORDS
  }

  /** No date occurs twice in the log. */
  predicate DistinctDates(log: seq<DailyRecord>)
  {
    forall i, j :: 0 <= i < j < |log| ==> log[i].date != log[j].date
  }

  lemma BumpShape(log: seq<DailyRecord>, today: Date, n: nat)
    ensures var b := Bump(log, today, n);
      match FindDate(log, today)
      case Some(i) =>
        && |b| == |log|
        && b[i] == DailyRecord(today, log[i].count + n)
        && (forall k :: 0 <= k < |b| && k != i ==> b[k] == log[k])
      case None =>
        b == log + [DailyRecord(today, n)]
  {
  }

  lemma {:induction false} BumpDistinct(log: seq<DailyRecord>, today: Date, n: nat)
    requires AllDatesValid(log) && ValidDate(today)
    requires Sorting.DistinctKeys(log, RecordDay)
    ensures AllDatesValid(Bump(log, today, n))
    ensures Sorting.DistinctKeys(Bump(log, today, n), RecordDay)
  {
    var b := Bump(log, today, n);
    BumpShape(log, today, n);
    forall i, j | 0 <= i < j < |b| ensures RecordDay(b[i]) != RecordDay(b[j]) {
      if j == |log| {
        assert b[j].date == today && b[i] == log[i];
        DayNumberOrder(b[i].date, today);
      } else {
        assert b[i].date == log[i].date && b[j].date == log[j].date;
      }
    }
    forall i | 0 <= i < |b| ensures ValidDate(b[i].date) {
      if i < |log| { assert b[i].date == log[i].date; }
    }
  }

  /** The stored log is always ordered newest first and holds at most 30 records. */
  lemma LogAfterIncrementBounded(log: seq<DailyRecord>, today: Date, n: nat)
    ensures Sorting.SortedDesc(LogAfterIncrement(log, today, n), RecordDay)
    ensures |LogAfterIncrement(log, today, n)| <= MAX_RECORDS
  {
    var b := Bump(log, today, n);
    Sorting.SortDescSorted(b, RecordDay);
  }

  /** Starting from a valid log, the stored log is valid again: dates stay unique. */
  lemma LogAfterIncrementValid(log: seq<DailyRecord>, today: Date, n: nat)
    requires ValidLog(log) && ValidDate(today)
    ensures ValidLog(LogAfterIncrement(log, today, n))
  {
    var b := Bump(log, today, n);
    BumpDistinct(log, today, n);
    Sorting.SortDescStrict(b, RecordDay);
    SortedDatesValid(b);
    CapValid(Sorting.SortDesc(b, RecordDay));
  }

  lemma SortedDatesValid(log: seq<DailyRecord>)
    requires AllDatesValid(log)
    ensures AllDatesValid(Sorting.SortDesc(log, RecordDay))
  {
    var s := Sorting.SortDesc(log, RecordDay);
    forall i | 0 <= i < |s| ensures ValidDate(s[i].date) {
      assert s[i] in multiset(log);
    }
  }

  lemma CapValid(s: seq<DailyRecord>)
    requires AllDatesValid(s) && Sorting.StrictlyDesc(s, RecordDay)
    ensures ValidLog(if |s| <= MAX_RECORDS then s else s[..MAX_RECORDS])
  {
  }

  /**
   * The log keeps the most recent dates: a record cut by the 30-entry cap is no newer
   * than any record kept.
   */
  lemma LogKeepsMostRecent(log: seq<DailyRecord>, today: Date, n: nat, kept: DailyRecord, dropped: DailyRecord)
    requires kept in LogAfterIncrement(log, today, n)
    requires dropped in Bump(log, today, n) && dropped !in LogAfterIncrement(log, today, n)
    ensures DayNumber(dropped.date) <= DayNumber(kept.date)
  {
    var b := Bump(log, today, n);
    var s := Sorting.SortDesc(b, RecordDay);
    Sorting.SortDescSorted(b, RecordDay);
    assert dropped in multiset(s);
    var j :| 0 <= j < |s| && s[j] == dropped;
    var i :| 0 <= i < |Trim(b)| && Trim(b)[i] == kept;
    assert s[i] == kept;
    assert j >= MAX_RECORDS;
  }

  /**
   * Records of other dates are never altered and today's record holds the old count plus
   * `n`; every stored record comes from the old log, apart from today's.
   */
  lemma LogRecordsPreserved(log: seq<DailyRecord>, today: Date, n: nat, r: DailyRecord)
    requires DistinctDates(log)
    requires r in LogAfterIncrement(log, today, n)
    ensures r.date != today ==> r in log
    ensures r.date == today ==> r.count == CountOn(log, today) + n
  {
    var b := Bump(log, today, n);
    var s := Sorting.SortDesc(b, RecordDay);
    var i :| 0 <= i < |Trim(b)| && Trim(b)[i] == r;
    assert r == s[i] && r in multiset(s);
    var k :| 0 <= k < |b| && b[k] == r;
    BumpShape(log, today, n);
    match FindDate(log, today)
    case Some(i) =>
      if k != i {
        assert r == log[k];
      }
    case None =>
      if k < |log| { assert r == log[k]; }
  }

  /**
   * On the first increment of a new day after the last recorded one, today's record
   * `{today, n}` goes first and the 29 newest older records follow.
   */
  lemma LogOnNewDay(log: seq<DailyRecord>, today: Date, n: nat)
    requires ValidLog(log) && ValidDate(today)
    requires forall i :: 0 <= i < |log| ==> Before(log[i].date, today)
    ensures LogAfterIncrement(log, today, n)
         == [DailyRecord(today, n)] + (if |log| < MAX_RECORDS then log else log[..MAX_RECORDS - 1])
  {
    forall i | 0 <= i < |log| ensures RecordDay(log[i]) < DayNumber(today) && log[i].date != today {
      DayNumberOrder(log[i].date, today);
    }
    assert Bump(log, today, n) == log + [DailyRecord(today, n)];
    Sorting.SortNewestToFront(log, DailyRecord(today, n), RecordDay);
  }

  // ---------------------------------------------------------------- increment

  /**
   * The stats part of `updateMantraCount` after its `getMantraStats` call: the rollover
   * branch, the two counters, and `practiceDays` for a date without a record yet.
   */
  function Increment(s: MantraStats, log: seq<DailyRecord>, today: Date, n: nat): MantraStats
  {
    var s1 := if s.lastChantDate != today
      then s.(lastChantDate := today, todayCount := 0, streak := s.streak + 1)
      else s;
    var s2 := s1.(todayCount := s1.todayCount + n, totalCount := s1.totalCount + n);
    if FindDate(log, today).Some? then s2
    else s2.(practiceDays := Some(s2.practiceDays.GetOr(0) + 1))
  }

  // ---------------------------------------------------------------- achievements

  datatype Measure = TotalCount | Streak

  /** One line of the threshold table of `checkAchievements`. */
  datatype AchievementRule = AchievementRule(tag: string, measure: Measure, threshold: nat)

  const ACHIEVEMENT_RULES: seq<AchievementRule> := [
    AchievementRule("108_TOTAL", TotalCount, 108),
    AchievementRule("1008_TOTAL", TotalCount, 1008),
    AchievementRule("10008_TOTAL", TotalCount, 10008),
    AchievementRule("7_DAYS_STREAK", Streak, 7),
    AchievementRule("21_DAYS_STREAK", Streak, 21),
    AchievementRule("108_DAYS_STREAK", Streak, 108)
  ]

  predicate Reached(s: MantraStats, rule: AchievementRule)
  {
    (match rule.measure
     case TotalCount => s.totalCount
     case Streak => s.streak) >= rule.threshold
  }

  /** The tag a rule contributes: its own when reached and not held yet, nothing otherwise. */
  function Gate(s: MantraStats, rule: AchievementRule): seq<string>
  {
    if Reached(s, rule) && rule.tag !in s.achievements then [rule.tag] else []
  }

  /** The tags of `rules`, in order, whose threshold `s` reaches and that `s` does not hold yet. */
  function Unlocked(s: MantraStats, rules: seq<AchievementRule>): seq<string>
  {
    if rules == [] then [] else Unlocked(s, rules[..|rules| - 1]) + Gate(s, rules[|rules| - 1])
  }

  /** The first `k` rules yield what the first `k - 1` yield, then the `k`-th rule's tag. */
  lemma UnlockedPrefix(s: MantraStats, rules: seq<AchievementRule>, k: nat)
    requires 0 < k <= |rules|
    ensures Unlocked(s, rules[..k]) == Unlocked(s, rules[..k - 1]) + Gate(s, rules[k - 1])
  {
    assert rules[..k][..k - 1] == rules[..k - 1];
  }

  /** The list `checkAchievements` returns. */
  function NewAchievements(s: MantraStats): seq<string>
  {
    Unlocked(s, ACHIEVEMENT_RULES)
  }
  /** A table of six rules read rule by rule, in its order. */
  lemma UnlockedSix(s: MantraStats, r: seq<AchievementRule>)
    requires |r| == 6
    ensures Unlocked(s, r) == Gate(s, r[0]) + Gate(s, r[1]) + Gate(s, r[2]) + Gate(s, r[3]) + Gate(s, r[4]) + Gate(s, r[5])
  {
    var u := Gate(s, r[0]);
    assert Unlocked(s, r[..1]) == u by { UnlockedPrefix(s, r, 1); assert r[..0] == []; }
    u := u + Gate(s, r[1]);
    assert Unlocked(s, r[..2]) == u by { UnlockedPrefix(s, r, 2); }
    u := u + Gate(s, r[2]);
    assert Unlocked(s, r[..3]) == u by { UnlockedPrefix(s, r, 3); }
    u := u + Gate(s, r[3]);
    assert Unlocked(s, r[..4]) == u by { UnlockedPrefix(s, r, 4); }
    u := u + Gate(s, r[4]);
    assert Unlocked(s, r[..5]) == u by { UnlockedPrefix(s, r, 5); }
    u := u + Gate(s, r[5]);
    assert Unlocked(s, r[..6]) == u by { UnlockedPrefix(s, r, 6); }
    assert r[..6] == r;
  }

  /** The threshold table read rule by rule, in its order. */
  lemma NewAchievementsUnrolled(s: MantraStats)
    ensures var r := ACHIEVEMENT_RULES;
      NewAchievements(s) == Gate(s, r[0]) + Gate(s, r[1]) + Gate(s, r[2]) + Gate(s, r[3]) + Gate(s, r[4]) + Gate(s, r[5])
  {
    UnlockedSix(s, ACHIEVEMENT_RULES);
  }



  /** The record after `checkAchievements` appended the new tags. */
  function WithAchievements(s: MantraStats): MantraStats
  {
    s.(achievements := s.achievements + NewAchievements(s))
  }

  lemma {:induction false} UnlockedExactly(s: MantraStats, rules: seq<AchievementRule>, tag: string)
    ensures tag in Unlocked(s, rules) <==>
      tag !in s.achievements && exists i :: 0 <= i < |rules| && rules[i].tag == tag && Reached(s, rules[i])
  {
    if rules != [] {
      var init := rules[..|rules| - 1];
      UnlockedExactly(s, init, tag);
      if tag !in s.achievements && tag in Unlocked(s, init) {
        var i :| 0 <= i < |init| && init[i].tag == tag && Reached(s, init[i]);
        assert rules[i] == init[i];
      }
      if exists i :: 0 <= i < |rules| && rules[i].tag == tag && Reached(s, rules[i]) {
        var i :| 0 <= i < |rules| && rules[i].tag == tag && Reached(s, rules[i]);
        if i < |rules| - 1 { assert init[i] == rules[i]; }
      }
    }
  }

  /**
   * `checkAchievements` reports a tag exactly when its threshold holds and the record
   * does not hold it yet.
   */
  lemma NewAchievementsExactly(s: MantraStats, tag: string)
    ensures tag in NewAchievements(s) <==>
      tag !in s.achievements
      && exists i :: 0 <= i < |ACHIEVEMENT_RULES| && ACHIEVEMENT_RULES[i].tag == tag && Reached(s, ACHIEVEMENT_RULES[i])
  {
    UnlockedExactly(s, ACHIEVEMENT_RULES, tag);
  }

  lemma {:induction false} UnlockedNone(s: MantraStats, rules: seq<AchievementRule>)
    requires forall i :: 0 <= i < |rules| && Reached(s, rules[i]) ==> rules[i].tag in s.achievements
    ensures Unlocked(s, rules) == []
  {
    if rules != [] {
      var init := rules[..|rules| - 1];
      assert forall i :: 0 <= i < |init| ==> init[i] == rules[i];
      UnlockedNone(s, init);
    }
  }

  /** Unlocking is idempotent: a second check on the updated record finds nothing new. */
  lemma AchievementsIdempotent(s: MantraStats)
    ensures NewAchievements(WithAchievements(s)) == []
  {
    var w := WithAchievements(s);
    forall i | 0 <= i < |ACHIEVEMENT_RULES| && Reached(w, ACHIEVEMENT_RULES[i])
      ensures ACHIEVEMENT_RULES[i].tag in w.achievements
    {
      var tag := ACHIEVEMENT_RULES[i].tag;
      UnlockedExactly(s, ACHIEVEMENT_RULES, tag);
      assert Reached(s, ACHIEVEMENT_RULES[i]);
    }
    UnlockedNone(w, ACHIEVEMENT_RULES);
  }

  // ---------------------------------------------------------------- the whole update

  /** The stats `updateMantraCount` stores and returns, from the stored record and log. */
  function UpdatedStats(stored: Option<MantraStats>, log: seq<DailyRecord>, today: Date, n: nat): MantraStats
    requires ValidDate(today)
  {
    WithAchievements(Increment(Reconcile(stored, today, |log|), log, today, n))
  }

  /**
   * One increment of `n`: both counters grow by exactly `n` (today's from 0 on a new
   * day), the streak is never raised (the rollover has already set the last chant date
   * to today, so the raising branch cannot run), a new practice day is counted only
   * when today had no record, and achievements are only appended.
   */
  lemma UpdateCountEffect(stored: Option<MantraStats>, log: seq<DailyRecord>, today: Date, n: nat)
    requires ValidDate(today)
    ensures var r := UpdatedStats(stored, log, today, n);
      var base := if stored.Some? then stored.value else InitStats(today);
      && r.lastChantDate == today
      && r.totalCount == base.totalCount + n
      && r.todayCount == (if base.lastChantDate == today then base.todayCount else 0) + n
      && r.streak <= base.streak
      && (ValidDate(base.lastChantDate) && Before(NextDay(base.lastChantDate), today) ==> r.streak == 0)
      && (!(ValidDate(base.lastChantDate) && Before(NextDay(base.lastChantDate), today)) ==> r.streak == base.streak)
      && r.practiceDays == Some(base.practiceDays.GetOr(|log|) + (if FindDate(log, today).None? then 1 else 0))
      && r.achievements[..|base.achievements|] == base.achievements
  {
    ReconcileEffect(stored, today, |log|);
  }

  /**
   * `practiceDays` counts every practice day ever, while the log is capped: they agree
   * while the log holds fewer than 30 records and part ways at the 31st practice day.
   */
  lemma PracticeDaysVersusLog(s: MantraStats, log: seq<DailyRecord>, today: Date, n: nat)
    requires ValidDate(today) && s.lastChantDate == today && ValidLog(log)
    requires s.practiceDays == Some(|log|)
    ensures var r := UpdatedStats(Some(s), log, today, n);
      |log| < MAX_RECORDS ==> r.practiceDays == Some(|LogAfterIncrement(log, today, n)|)
    ensures var r := UpdatedStats(Some(s), log, today, n);
      |log| == MAX_RECORDS && FindDate(log, today).None? ==>
        r.practiceDays == Some(MAX_RECORDS + 1) && |LogAfterIncrement(log, today, n)| == MAX_RECORDS
  {
    BumpShape(log, today, n);
  }

  // ---------------------------------------------------------------- settings

  /** The display settings record of `getSettings`. */
  datatype Settings = Settings(
    theme: string,
    colorScheme: string,
    backgroundSound: string,
    completionChime: string,
    language: string,
    fontSize: string,
    animationsEnabled: bool)

  /** The fields given to `updateSettings`; `None` is a key the argument does not hold. */
  datatype SettingsPatch = SettingsPatch(
    theme: Option<string>,
    colorScheme: Option<string>,
    backgroundSound: Option<string>,
    completionChime: Option<string>,
    language: Option<string>,
    fontSize: Option<string>,
    animationsEnabled: Option<bool>)

  const DEFAULT_SETTINGS: Settings :=
    Settings("light", "spiritual-gold", "none", "bell", "english", "medium", true)

  /** `{...current, ...patch}`. */
  function ApplySettings(current: Settings, patch: SettingsPatch): Settings
  {
    Settings(
      patch.theme.GetOr(current.theme),
      patch.colorScheme.GetOr(current.colorScheme),
      patch.backgroundSound.GetOr(current.backgroundSound),
      patch.completionChime.GetOr(current.completionChime),
      patch.language.GetOr(current.language),
      patch.fontSize.GetOr(current.fontSize),
      patch.animationsEnabled.GetOr(current.animationsEnabled))
  }

  /** Applying the same update twice is the same as applying it once. */
  lemma ApplySettingsIdempotent(current: Settings, patch: SettingsPatch)
    ensures ApplySettings(ApplySettings(current, patch), patch) == ApplySettings(current, patch)
  {
  }

  /** Of two updates, the later one wins on every key both give. */
  lemma ApplySettingsCompose(current: Settings, first: SettingsPatch, second: SettingsPatch)
    ensures ApplySettings(ApplySettings(current, first), second)
         == ApplySettings(current, SettingsPatch(
              if second.theme.Some? then second.theme else first.theme,
              if second.colorScheme.Some? then second.colorScheme else first.colorScheme,
              if second.backgroundSound.Some? then second.backgroundSound else first.backgroundSound,
              if second.completionChime.Some? then second.completionChime else first.completionChime,
              if second.language.Some? then second.language else first.language,
              if second.fontSize.Some? then second.fontSize else first.fontSize,
              if second.animationsEnabled.Some? then second.animationsEnabled else first.animationsEnabled))
  {
  }

  // ---------------------------------------------------------------- daily content

  datatype Mantra = Mantra(text: string, translation: string, meaning: string)

  const MANTRAS: seq<Mantra> := [
    Mantra("ॐ नमः शिवाय", "Om Namah Shivaya - I bow to Shiva",
      "This mantra is dedicated to Lord Shiva and signifies the unity of individual consciousness with the supreme consciousness."),
    Mantra("ॐ गं गणपतये नमः", "Om Gam Ganapataye Namaha",
      "This mantra is dedicated to Lord Ganesha, the remover of obstacles and patron of arts and sciences."),
    Mantra("हरे कृष्ण हरे कृष्ण, कृष्ण कृष्ण हरे हरे, हरे राम हरे राम, राम राम हरे हरे",
      "Hare Krishna Hare Krishna, Krishna Krishna Hare Hare, Hare Rama Hare Rama, Rama Rama Hare Hare",
      "This mantra invokes the energy of divine love and devotion."),
    Mantra("ॐ मणि पद्मे हूँ", "Om Mani Padme Hum",
      "The jewel in the lotus; this mantra embodies the compassion of all Buddhas."),
    Mantra("ॐ श्री गुरुभ्यो नमः", "Om Sri Gurubhyo Namaha",
      "I offer my respectful obeisances unto the spiritual masters.")
  ]

  const QUOTES: seq<string> := [
    "Silence is the language of God, all else is poor translation.",
    "When you repeat the name of God, it creates a sacred vibration in your being.",
    "Mantras are like spiritual passwords; they help us access higher states of consciousness.",
    "Your breath is the bridge between your body and mind - use it to carry the divine name.",
    "In the repetition of a mantra, you find the eternal in the moment.",
    "Chanting is a way of getting in touch with yourself; it's an exploration of your spiritual heart.",
    "When mind, breath, and mantra become one, that is true meditation."
  ]

  /** `parts.reduce((a, b) => a + parseInt(b), 0)` over digit strings. */
  function SumOfParts(parts: seq<string>): nat
    requires forall i :: 0 <= i < |parts| ==> AllDigits(parts[i])
  {
    if parts == [] then 0 else SumOfParts(parts[..|parts| - 1]) + DigitsValue(parts[|parts| - 1])
  }

  lemma SplitDateKey(d: Date)
    requires KeyDate(d)
    ensures Split(DateKey(d), '-') == [Padded(d.year, 4), Pad2(d.month), Pad2(d.day)]
  {
    var y, m, dd := Padded(d.year, 4), Pad2(d.month), Pad2(d.day);
    assert '-' !in y && '-' !in m && '-' !in dd by {
      assert AllDigits(y) && AllDigits(m) && AllDigits(dd);
    }
    SplitNoSeparator(dd, '-');
    SplitAtFirst(m, '-', dd);
    assert DateKey(d) == y + ['-'] + (m + ['-'] + dd);
    SplitAtFirst(y, '-', m + ['-'] + dd);
  }

  /** The seed of `getDailyContent`: the sum of the numbers in the date key. */
  function DateSeed(today: Date): nat
    requires KeyDate(today)
  {
    SplitDateKey(today);
    SumOfParts(Split(DateKey(today), '-'))
  }

  datatype DailyContent = DailyContent(mantra: Mantra, quote: string)

  /** The content of a seed: mantra `seed % 5`, quote `(seed * 13) % 7`. */
  function ContentForSeed(seed: nat): DailyContent
  {
    DailyContent(MANTRAS[seed % |MANTRAS|], QUOTES[(seed * 13) % |QUOTES|])
  }

  /** `getDailyContent` */
  function GetDailyContent(today: Date): DailyContent
    requires KeyDate(today)
  {
    ContentForSeed(DateSeed(today))
  }

  lemma SumOfThree(a: string, b: string, c: string)
    requires AllDigits(a) && AllDigits(b) && AllDigits(c)
    ensures SumOfParts([a, b, c]) == DigitsValue(a) + DigitsValue(b) + DigitsValue(c)
  {
    assert [a, b, c][..2] == [a, b] && [a, b][..1] == [a] && [a][..0] == [];
    assert SumOfParts([a]) == DigitsValue(a);
    assert SumOfParts([a, b]) == DigitsValue(a) + DigitsValue(b);
  }

  /** The seed is year + month + day. */
  lemma DateSeedValue(today: Date)
    requires KeyDate(today)
    ensures DateSeed(today) == today.year + today.month + today.day
  {
    SplitDateKey(today);
    var y, m, d := Padded(today.year, 4), Pad2(today.month), Pad2(today.day);
    SumOfThree(y, m, d);
    PaddedRoundTrip(today.year, 4);
    PaddedRoundTrip(today.month, 2);
    PaddedRoundTrip(today.day, 2);
  }

  /** Mantra `seed mod 5` of the five and quote `13 * seed mod 7` of the seven. */
  lemma ContentForSeedIndices(seed: nat)
    ensures ContentForSeed(seed).mantra == MANTRAS[seed % 5]
    ensures ContentForSeed(seed).quote == QUOTES[(seed * 13) % 7]
  {
    assert |MANTRAS| == 5 && |QUOTES| == 7;
  }

  /** The content picked depends on nothing but the date: the seed is year + month + day. */
  lemma DailyContentChoice(today: Date)
    requires KeyDate(today)
    ensures GetDailyContent(today) == ContentForSeed(today.year + today.month + today.day)
  {
    DateSeedValue(today);
  }
}
