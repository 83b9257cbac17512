/** The operations of src/lib/spiritual-journey.ts on the store. */
module SpiritualJourney {
  import opened Wrappers
  import opened Journey
  import opened Storage

  /** `getUserJourneyMilestones`: reads the list, adding missing catalog entries, and stores it. */
  method GetUserJourneyMilestones(store: Store) returns (milestones: seq<Milestone>)
    modifies store`milestones
    ensures milestones == Migrated(old(store.milestones))
    ensures store.milestones == Some(milestones)
  {
    if store.milestones.None? {
      milestones := Missing(CATALOG, []);
      store.milestones := Some(milestones);
    } else {
      milestones := store.milestones.value;
      var newMilestones := Missing(CATALOG, Ids(milestones));
      if |newMilestones| > 0 {
        milestones := milestones + newMilestones;
        store.milestones := Some(milestones);
      } else {
        assert milestones + newMilestones == milestones;
      }
    }
  }

  /**
   * The pass of `updateMilestoneProgress` over the list: each milestone updated in turn,
   * the ones that flip collected in order.
   */
  method ProgressAll(milestones: seq<Milestone>, stats: JourneyStats)
    returns (updated: seq<Milestone>, newlyAchieved: seq<Milestone>)
    ensures updated == UpdatedAll(milestones, stats)
    ensures newlyAchieved == NewlyAchieved(milestones, stats)
  {
    updated := [];
    newlyAchieved := [];
    var i := 0;
    while i < |milestones|
      invariant 0 <= i <= |milestones|
      invariant updated == UpdatedAll(milestones[..i], stats)
      invariant newlyAchieved == NewlyAchieved(milestones[..i], stats)
    {
      var m := milestones[i];
      var isAchieved := m.isAchieved;
      var progress: real := 0.0;
      if Truthy(m.requiredCount) {
        progress := Ratio(stats.totalCount as real, m.requiredCount.value);
        if !isAchieved && stats.totalCount >= m.requiredCount.value {
          isAchieved := true;
          newlyAchieved := newlyAchieved + [m.(isAchieved := isAchieved, progress := Round(progress))];
        }
      } else if Truthy(m.requiredStreak) {
        progress := Ratio(stats.streak as real, m.requiredStreak.value);
        if !isAchieved && stats.streak >= m.requiredStreak.value {
          isAchieved := true;
          newlyAchieved := newlyAchieved + [m.(isAchieved := isAchieved, progress := Round(progress))];
        }
      } else if Truthy(m.requiredDays) {
        progress := Ratio(PracticeDays(stats), m.requiredDays.value);
        if !isAchieved && PracticeDays(stats) >= m.requiredDays.value as real {
          isAchieved := true;
          newlyAchieved := newlyAchieved + [m.(isAchieved := isAchieved, progress := Round(progress))];
        }
      }
      updated := updated + [m.(isAchieved := isAchieved, progress := Round(progress))];
      assert milestones[..i + 1][..i] == milestones[..i];
      i := i + 1;
    }
    assert milestones[..i] == milestones;
  }

  /** `updateMilestoneProgress`: updates and stores the list, and reports what was newly achieved. */
  method UpdateMilestoneProgress(store: Store, stats: JourneyStats)
    returns (milestones: seq<Milestone>, newlyAchieved: seq<Milestone>)
    modifies store`milestones
    ensures milestones == UpdatedAll(Migrated(old(store.milestones)), stats)
    ensures newlyAchieved == NewlyAchieved(Migrated(old(store.milestones)), stats)
    ensures store.milestones == Some(milestones)
  {
    var current := GetUserJourneyMilestones(store);
    milestones, newlyAchieved := ProgressAll(current, stats);
    store.milestones := Some(milestones);
  }

  /** `getNextMilestone`: reads the list (storing any migration) and picks the next one. */
  method GetNextMilestone(store: Store) returns (next: Option<Milestone>)
    modifies store`milestones
    ensures next == NextMilestone(Migrated(old(store.milestones)))
    ensures store.milestones == Some(Migrated(old(store.milestones)))
  {
    var milestones := GetUserJourneyMilestones(store);
    next := NextMilestone(milestones);
  }

  /** `calculateTotalPracticeDays`: the number of stored daily records, 0 when none are stored. */
  method CalculateTotalPracticeDays(store: Store) returns (days: nat)
    ensures days == |store.dailyRecords|
  {
    days := |store.dailyRecords|;
  }
}
