/** The completion markers of src/lib/daily-challenges.ts on the store. */
module DailyChallenges {
  import opened Wrappers
  import opened Calendar
  import Challenges
  import opened Storage

  /** `getChallengeStatus`: the stored markers, or none at all. */
  method GetChallengeStatus(store: Store) returns (status: Challenges.ChallengeStatus)
    ensures status == Challenges.StatusOrEmpty(store.challengeStatus)
    ensures store.challengeStatus.None? ==> status.lastCompletedDaily.None? && status.lastCompletedMonthly.None?
  {
    if store.challengeStatus.Some? {
      status := store.challengeStatus.value;
    } else {
      status := Challenges.EMPTY_STATUS;
    }
  }

  /** `isDailyChallengeCompleted`: the daily marker holds today's date key. */
  method IsDailyChallengeCompleted(store: Store, today: Date) returns (completed: bool)
    requires KeyDate(today)
    ensures completed <==> Challenges.StatusOrEmpty(store.challengeStatus).lastCompletedDaily == Some(DateKey(today))
  {
    var status := GetChallengeStatus(store);
    completed := status.lastCompletedDaily == Some(DateKey(today));
  }

  /** `isMonthlyCompleted`: the monthly marker holds this month's key. */
  method IsMonthlyCompleted(store: Store, today: Date) returns (completed: bool)
    requires KeyDate(today)
    ensures completed <==> Challenges.StatusOrEmpty(store.challengeStatus).lastCompletedMonthly == Some(MonthKey(today))
  {
    var status := GetChallengeStatus(store);
    completed := status.lastCompletedMonthly == Some(MonthKey(today));
  }

  /** `completeDailyChallenge`: stores today's date key as the daily marker. */
  method CompleteDailyChallenge(store: Store, today: Date)
    requires KeyDate(today)
    modifies store`challengeStatus
    ensures store.challengeStatus == Some(Challenges.CompleteDaily(Challenges.StatusOrEmpty(old(store.challengeStatus)), today))
  {
    var status := GetChallengeStatus(store);
    status := status.(lastCompletedDaily := Some(DateKey(today)));
    store.challengeStatus := Some(status);
  }

  /** `completeMonthlyChallenge`: stores this month's key as the monthly marker. */
  method CompleteMonthlyChallenge(store: Store, today: Date)
    requires KeyDate(today)
    modifies store`challengeStatus
    ensures store.challengeStatus == Some(Challenges.CompleteMonthly(Challenges.StatusOrEmpty(old(store.challengeStatus)), today))
  {
    var status := GetChallengeStatus(store);
    status := status.(lastCompletedMonthly := Some(MonthKey(today)));
    store.challengeStatus := Some(status);
  }

}
