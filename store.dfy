/**
 * The browser's key-value store as the program uses it: one field per stored record.
 * A key that is not stored is `None`; the daily-record log, which every reader treats
 * as empty when it is missing, is a plain sequence.
 */
module Storage {
  import opened Wrappers
  import opened Stats
  import opened Journey
  import opened Challenges
  import opened Notifications
  import opened Identity

  class Store {
    /** `mantraStats` */
    var stats: Option<MantraStats>
    /** `mantraDailyRecords` */
    var dailyRecords: seq<DailyRecord>
    /** `mantraJourneyMilestones` */
    var milestones: Option<seq<Milestone>>
    /** `challengeStatus` */
    var challengeStatus: Option<ChallengeStatus>
    /** `notificationPreferences` */
    var notificationPrefs: Option<Prefs>
    /** `userIdentity` */
    var identity: Option<UserIdentity>
    /** `mantraSettings` */
    var settings: Option<Settings>

    /** An empty store. */
    constructor ()
      ensures stats.None? && dailyRecords == [] && milestones.None? && challengeStatus.None?
      ensures notificationPrefs.None? && identity.None? && settings.None?
    {
      stats := None;
      dailyRecords := [];
      milestones := None;
      challengeStatus := None;
      notificationPrefs := None;
      identity := None;
      settings := None;
    }
  }
}
