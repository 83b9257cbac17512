/** The operations of src/lib/mantra-storage.ts on the store. */
module MantraStorage {
  import opened Wrappers
  import opened Calendar
  import opened Stats
  import opened Journey
  import opened Storage
  import SpiritualJourney

  /**
   * `getMantraStats`: the stored record rolled over to today (the initial record when none
   * is stored), with a missing `practiceDays` backfilled; the record is written back
   * whenever it changed.
   */
  method GetMantraStats(store: Store, today: Date) returns (stats: MantraStats)
    requires ValidDate(today)
    modifies store`stats
    ensures stats == Reconcile(old(store.stats), today, |store.dailyRecords|)
    ensures store.stats == Some(stats)
  {
    if store.stats.None? {
      stats := InitStats(today);
      store.stats := Some(stats);
      return;
    }
    stats := store.stats.value;
    if stats.lastChantDate != today {
      var daysDiff := DaysDiff(stats.lastChantDate, today);
      if daysDiff == Some(1) {
        // the streak continues
      } else if daysDiff.Some? && daysDiff.value > 1 {
        stats := stats.(streak := 0);
      }
      stats := stats.(todayCount := 0, lastChantDate := today);
      store.stats := Some(stats);
    }
    if stats.practiceDays.None? {
      var records := GetDailyRecords(store);
      stats := stats.(practiceDays := Some(|records|));
      store.stats := Some(stats);
    }
  }

  /** `getDailyRecords`: the stored log, empty when none is stored. */
  method GetDailyRecords(store: Store) returns (records: seq<DailyRecord>)
    ensures records == store.dailyRecords
  {
    records := store.dailyRecords;
  }

  /**
   * `checkAchievements`: the tags whose threshold the record reaches and that it does not
   * hold yet, in table order; when there are any, they are appended to the record and the
   * record is stored.
   */
  method CheckAchievements(store: Store, stats: MantraStats) returns (achievements: seq<string>, updated: MantraStats)
    modifies store`stats
    ensures achievements == NewAchievements(stats)
    ensures updated == WithAchievements(stats)
    ensures achievements == [] ==> updated == stats
    ensures store.stats == if achievements == [] then old(store.stats) else Some(updated)
  {
    var rules := ACHIEVEMENT_RULES;
    achievements := [];
    achievements := CheckRule(stats, rules[0], achievements);  // totalCount >= 108
    achievements := CheckRule(stats, rules[1], achievements);  // totalCount >= 1008
    achievements := CheckRule(stats, rules[2], achievements);  // totalCount >= 10008
    achievements := CheckRule(stats, rules[3], achievements);  // streak >= 7
    achievements := CheckRule(stats, rules[4], achievements);  // streak >= 21
    achievements := CheckRule(stats, rules[5], achievements);  // streak >= 108
    NewAchievementsUnrolled(stats);
    if |achievements| > 0 {
      updated := stats.(achievements := stats.achievements + achievements);
      store.stats := Some(updated);
    } else {
      assert achievements == [];
      assert stats.achievements + [] == stats.achievements;
      updated := stats;
    }
  }

  /** One threshold test of `checkAchievements`: push the tag when reached and not held yet. */
  method CheckRule(stats: MantraStats, rule: AchievementRule, achievements: seq<string>) returns (result: seq<string>)
    ensures result == achievements + Gate(stats, rule)
  {
    result := achievements;
    if Reached(stats, rule) && rule.tag !in stats.achievements {
      result := result + [rule.tag];
    }
  }

  /**
   * `updateMantraCount`: adds `count` to today's counters and today's record, keeps the 30
   * most recent records, stores both, appends newly reached achievements and updates the
   * milestones from the new counters.
   */
  method UpdateMantraCount(store: Store, today: Date, count: nat) returns (stats: MantraStats)
    requires ValidDate(today)
    modifies store`stats, store`dailyRecords, store`milestones
    ensures stats == UpdatedStats(old(store.stats), old(store.dailyRecords), today, count)
    ensures store.stats == Some(stats)
    ensures store.dailyRecords == LogAfterIncrement(old(store.dailyRecords), today, count)
    ensures store.milestones ==
      Some(UpdatedAll(Migrated(old(store.milestones)), JourneyStats(stats.totalCount, stats.streak, stats.practiceDays)))
  {
    ghost var log, milestones := store.dailyRecords, store.milestones;
    stats := GetMantraStats(store, today);
    ghost var reconciled := stats;
    var zero: nat, raised: nat := 0, stats.streak + 1;
    if stats.lastChantDate != today {
      // never taken: the read above has already moved the last chant date to today
      stats := stats.(lastChantDate := today, todayCount := zero, streak := raised);
    }
    stats := stats.(todayCount := stats.todayCount + count, totalCount := stats.totalCount + count);

    var dailyRecords := GetDailyRecords(store);
    var todayRecord := FindDate(dailyRecords, today);
    if todayRecord.Some? {
      var i := todayRecord.value;
      dailyRecords := dailyRecords[i := dailyRecords[i].(count := dailyRecords[i].count + count)];
    } else {
      dailyRecords := dailyRecords + [DailyRecord(today, count)];
      stats := stats.(practiceDays := Some(stats.practiceDays.GetOr(0) + 1));
    }
    assert dailyRecords == Bump(log, today, count);
    assert stats == Increment(reconciled, log, today, count);

    var filteredRecords := Trim(dailyRecords);
    store.dailyRecords := filteredRecords;
    store.stats := Some(stats);

    var achievements;
    achievements, stats := CheckAchievements(store, stats);

    assert store.milestones == milestones;
    var journeyStats := JourneyStats(stats.totalCount, stats.streak, stats.practiceDays);
    var updated, _ := SpiritualJourney.UpdateMilestoneProgress(store, journeyStats);
    assert updated == UpdatedAll(Migrated(milestones), journeyStats);
  }

  /** `getSettings`: the stored settings, or the defaults when none are stored. */
  method GetSettings(store: Store) returns (settings: Settings)
    ensures settings == store.settings.GetOr(DEFAULT_SETTINGS)
  {
    if store.settings.Some? {
      settings := store.settings.value;
    } else {
      settings := DEFAULT_SETTINGS;
    }
  }

  /** `updateSettings`: stores the current settings overridden by the given fields. */
  method UpdateSettings(store: Store, newSettings: SettingsPatch)
    modifies store`settings
    ensures store.settings == Some(ApplySettings(old(store.settings).GetOr(DEFAULT_SETTINGS), newSettings))
  {
    var current := GetSettings(store);
    store.settings := Some(ApplySettings(current, newSettings));
  }
}
