/**
 * The reminder preferences of src/lib/notification-system.ts: the stored record and its
 * shallow-merge update, the daily permission-popup decision, the rotating reminder
 * message, the schedule match and the 24-hour and 12-hour clock strings.
 */
module Notifications {
  import opened Wrappers
  import opened Text

  datatype PermissionStatus = Granted | Denied | Pending | Default

  /** `NotificationPreferences`; `None` is a key the record does not hold. */
  datatype Prefs = Prefs(
    status: PermissionStatus,
    reminderCount: nat,
    morningTime: Option<string>,
    eveningTime: Option<string>,
    lastNotified: Option<int>,
    lastAsked: Option<int>,
    messageIndex: Option<nat>,
    targetCount: Option<nat>,
    showDailyPermissionPopup: Option<bool>,
    lastPermissionPopupDate: Option<string>)

  /** A `Partial<NotificationPreferences>`: the keys an update gives. */
  datatype PrefsPatch = PrefsPatch(
    status: Option<PermissionStatus>,
    reminderCount: Option<nat>,
    morningTime: Option<string>,
    eveningTime: Option<string>,
    lastNotified: Option<int>,
    lastAsked: Option<int>,
    messageIndex: Option<nat>,
    targetCount: Option<nat>,
    showDailyPermissionPopup: Option<bool>,
    lastPermissionPopupDate: Option<string>)

  const NO_CHANGE: PrefsPatch := PrefsPatch(None, None, None, None, None, None, None, None, None, None)

  const DEFAULT_PREFERENCES: Prefs :=
    Prefs(Pending, 1, Some("07:00"), Some("19:00"), None, None, Some(0), None, Some(true), Some(""))

  /** `getNotificationPreferences`: the stored record, or the defaults. */
  function CurrentPrefs(stored: Option<Prefs>): Prefs
  {
    stored.GetOr(DEFAULT_PREFERENCES)
  }

  function Or<T>(given: Option<T>, kept: Option<T>): Option<T>
  {
    if given.Some? then given else kept
  }

  /** `{...current, ...patch}`. */
  function ApplyPatch(current: Prefs, patch: PrefsPatch): Prefs
  {
    Prefs(
      patch.status.GetOr(current.status),
      patch.reminderCount.GetOr(current.reminderCount),
      Or(patch.morningTime, current.morningTime),
      Or(patch.eveningTime, current.eveningTime),
      Or(patch.lastNotified, current.lastNotified),
      Or(patch.lastAsked, current.lastAsked),
      Or(patch.messageIndex, current.messageIndex),
      Or(patch.targetCount, current.targetCount),
      Or(patch.showDailyPermissionPopup, current.showDailyPermissionPopup),
      Or(patch.lastPermissionPopupDate, current.lastPermissionPopupDate))
  }

  /** Two updates in a row are one update whose keys are the second's over the first's. */
  function ThenPatch(first: PrefsPatch, second: PrefsPatch): PrefsPatch
  {
    PrefsPatch(
      Or(second.status, first.status), Or(second.reminderCount, first.reminderCount),
      Or(second.morningTime, first.morningTime), Or(second.eveningTime, first.eveningTime),
      Or(second.lastNotified, first.lastNotified), Or(second.lastAsked, first.lastAsked),
      Or(second.messageIndex, first.messageIndex), Or(second.targetCount, first.targetCount),
      Or(second.showDailyPermissionPopup, first.showDailyPermissionPopup),
      Or(second.lastPermissionPopupDate, first.lastPermissionPopupDate))
  }

  /**
   * Saving the same update twice stores what saving it once stores; two updates compose
   * with the later keys winning; an update with no keys changes nothing.
   */
  lemma ApplyPatchLaws(current: Prefs, first: PrefsPatch, second: PrefsPatch)
    ensures ApplyPatch(ApplyPatch(current, first), first) == ApplyPatch(current, first)
    ensures ApplyPatch(ApplyPatch(current, first), second) == ApplyPatch(current, ThenPatch(first, second))
    ensures ApplyPatch(current, NO_CHANGE) == current
  {
  }

  // ---------------------------------------------------------------- permission popup

  /** `shouldShowDailyPermissionPopup`, given today's `toDateString()`. */
  predicate ShouldShowPopup(p: Prefs, todayText: string)
  {
    if p.status == Granted || p.showDailyPermissionPopup == Some(false) then false
    else if p.lastPermissionPopupDate == Some(todayText) then false
    else p.status == Denied || p.status == Pending
  }

  /** The update `markPermissionPopupShown` saves. */
  function MarkShownPatch(todayText: string): PrefsPatch
  {
    NO_CHANGE.(lastPermissionPopupDate := Some(todayText))
  }

  /**
   * The popup shows exactly when permission is denied or pending, the popup is not
   * switched off, and it was not already shown today; marking it shown hides it for the
   * rest of the day.
   */
  lemma PopupDecision(p: Prefs, todayText: string)
    ensures ShouldShowPopup(p, todayText) <==>
      (p.status == Denied || p.status == Pending)
      && p.showDailyPermissionPopup != Some(false)
      && p.lastPermissionPopupDate != Some(todayText)
    ensures !ShouldShowPopup(ApplyPatch(p, MarkShownPatch(todayText)), todayText)
    ensures p.status == Default ==> !ShouldShowPopup(p, todayText)
  {
  }

  // ---------------------------------------------------------------- reminders

  const NOTIFICATION_MESSAGES: seq<string> := [
    "Time for your daily mantra practice. ॐ नमः शिवाय",
    "Your soul is calling. Take a moment for your mantra practice.",
    "Peace awaits in the silence of your mantra recitation.",
    "A few moments of mantra practice can transform your entire day.",
    "Remember to connect with your spiritual self through mantra today.",
    "Your daily mantra awaits. Find a quiet moment to practice.",
    "Divine energy flows through the chanting of sacred mantras.",
    "ॐ - The universe is calling you to your daily practice.",
    "Spiritual growth happens one mantra at a time.",
    "Center yourself with your daily mantra practice."
  ]

  const MORNING_MESSAGES: seq<string> := [
    "Begin your day with spiritual intention. Time for your morning mantras.",
    "Let your mantra practice set the tone for a peaceful day.",
    "Greet the sun with the sacred sound of your mantra.",
    "Morning is the perfect time to connect with your higher self through mantras."
  ]

  const EVENING_MESSAGES: seq<string> := [
    "Close your day with the sacred vibrations of your mantra practice.",
    "Before rest, take time to reconnect through mantra chanting.",
    "Evening mantras help release the day's tensions and prepare for peaceful rest.",
    "Complete your spiritual circle with evening mantra practice."
  ]

  /** The rotation of a morning or an evening reminder. */
  function Messages(isMorning: bool): (ms: seq<string>)
    ensures |ms| == 14
  {
    (if isMorning then MORNING_MESSAGES else EVENING_MESSAGES) + NOTIFICATION_MESSAGES
  }

  /** The position in the rotation: `(messageIndex || 0) % messages.length`. */
  function MessagePosition(p: Prefs): (i: nat)
    ensures i < 14
  {
    p.messageIndex.GetOr(0) % 14
  }

  /** The update a sent reminder saves. */
  function SentPatch(p: Prefs, now: int): PrefsPatch
  {
    NO_CHANGE.(lastNotified := Some(now), messageIndex := Some(MessagePosition(p) + 1))
  }

  /** The outcome of `sendReminderNotification`: whether it sent, what it showed, what is stored. */
  datatype Reminder = Reminder(sent: bool, message: Option<string>, prefs: Prefs)

  /**
   * `sendReminderNotification`, given the current time and whether the notification
   * constructor throws.
   */
  function SendReminder(p: Prefs, isMorning: bool, now: int, notificationFails: bool): Reminder
  {
    if p.status != Granted || notificationFails then Reminder(false, None, p)
    else Reminder(true, Some(Messages(isMorning)[MessagePosition(p)]), ApplyPatch(p, SentPatch(p, now)))
  }

  /**
   * Without permission, or when the notification cannot be created, nothing is sent and
   * nothing changes. Otherwise the message at `messageIndex mod 14` is shown, the stored
   * index becomes that position plus one (so 1..14), and the next reminder of either
   * kind shows the following message of its rotation.
   */
  lemma ReminderRotation(p: Prefs, isMorning: bool, nextIsMorning: bool, now: int, later: int)
    ensures var r := SendReminder(p, isMorning, now, false);
      && (p.status != Granted ==> !r.sent && r.prefs == p)
      && (p.status == Granted ==>
            && r.sent
            && r.message == Some(Messages(isMorning)[MessagePosition(p)])
            && r.prefs.messageIndex.Some? && 1 <= r.prefs.messageIndex.value <= 14
            && r.prefs.lastNotified == Some(now)
            && r.prefs == p.(lastNotified := Some(now), messageIndex := Some(MessagePosition(p) + 1))
            && SendReminder(r.prefs, nextIsMorning, later, false).message
               == Some(Messages(nextIsMorning)[(MessagePosition(p) + 1) % 14]))
    ensures !SendReminder(p, isMorning, now, true).sent && SendReminder(p, isMorning, now, true).prefs == p
  {
  }

  // ---------------------------------------------------------------- schedule

  /** `HH:MM` of an hour and a minute, each zero-padded to two digits. */
  function ClockString(hour: nat, minute: nat): string
  {
    Pad2(hour) + ":" + Pad2(minute)
  }

  /**
   * `checkNotificationSchedule` at the given hour and minute: the morning reminder when
   * the time equals `morningTime`, then the evening one when two reminders are chosen and
   * the time equals `eveningTime`. The conditions read the preferences as they were on
   * entry; each send reads the stored ones.
   */
  function CheckSchedule(p: Prefs, hour: nat, minute: nat, now: int, notificationFails: bool): Prefs
  {
    ScheduleAt(p, ClockString(hour, minute), now, notificationFails)
  }

  /** The schedule check once the current time is rendered as `current`. */
  function ScheduleAt(p: Prefs, current: string, now: int, notificationFails: bool): Prefs
  {
    if p.status != Granted then p
    else
      var p1 := if p.morningTime == Some(current) then SendReminder(p, true, now, notificationFails).prefs else p;
      if p.reminderCount == 2 && p.eveningTime == Some(current)
      then SendReminder(p1, false, now, notificationFails).prefs
      else p1
  }

  /**
   * Without permission, or when notifications cannot be created, nothing changes; with
   * them, the message index moves once per matching reminder (morning, and evening when
   * two are chosen) and not otherwise.
   */
  lemma ScheduleEffect(p: Prefs, current: string, now: int)
    ensures p.status != Granted ==> ScheduleAt(p, current, now, false) == p
    ensures ScheduleAt(p, current, now, true) == p
    ensures var morning := p.morningTime == Some(current);
      var evening := p.reminderCount == 2 && p.eveningTime == Some(current);
      var r := ScheduleAt(p, current, now, false);
      p.status == Granted ==>
        && (!morning && !evening ==> r == p)
        && (morning && !evening ==> r == SendReminder(p, true, now, false).prefs)
        && (!morning && evening ==> r == SendReminder(p, false, now, false).prefs)
        && (morning && evening ==> r.messageIndex == Some((MessagePosition(p) + 1) % 14 + 1))
  {
    if p.status == Granted {
      SentPrefs(p, true, now);
      SentPrefs(p, false, now);
      SentPrefs(SendReminder(p, true, now, false).prefs, false, now);
    }
  }

  /** What a reminder sent with permission stores. */
  lemma SentPrefs(p: Prefs, isMorning: bool, now: int)
    requires p.status == Granted
    ensures SendReminder(p, isMorning, now, false).prefs
         == p.(lastNotified := Some(now), messageIndex := Some(MessagePosition(p) + 1))
  {
  }

  // ---------------------------------------------------------------- clock strings

  /** `time.split(':').map(Number)` reads two numbers: at least two pieces, both digits. */
  predicate ReadableClock(t: string)
  {
    var parts := Split(t, ':');
    |parts| >= 2 && AllDigits(parts[0]) && AllDigits(parts[1])
  }

  /** `formatTimeForDisplay`: `h:MM AM` or `h:MM PM` with `h` in 1..12. */
  function FormatTimeForDisplay(time24h: string): string
    requires ReadableClock(time24h)
  {
    var parts := Split(time24h, ':');
    var hours, minutes := DigitsValue(parts[0]), DigitsValue(parts[1]);
    var period := if hours >= 12 then "PM" else "AM";
    var hours12 := if hours % 12 == 0 then 12 else hours % 12;
    Decimal(hours12) + ":" + Pad2(minutes) + " " + period
  }

  /** `time12h.split(' ')` gives a time readable as two numbers. */
  predicate ReadableDisplayTime(t: string)
  {
    ReadableClock(Split(t, ' ')[0])
  }

  /** `convertTo24HourFormat`: back to zero-padded `HH:MM`. */
  function ConvertTo24HourFormat(time12h: string): string
    requires ReadableDisplayTime(time12h)
  {
    var pieces := Split(time12h, ' ');
    var period := if |pieces| >= 2 then Some(pieces[1]) else None;
    var parts := Split(pieces[0], ':');
    var hours, minutes := DigitsValue(parts[0]), DigitsValue(parts[1]);
    var hours24 :=
      if period == Some("PM") && hours != 12 then hours + 12
      else if period == Some("AM") && hours == 12 then 0
      else hours;
    Pad2(hours24) + ":" + Pad2(minutes)
  }

  /** A zero-padded 24-hour time `HH:MM`, hours 0..23 and minutes 0..59. */
  predicate ValidClock(t: string)
  {
    |t| == 5 && t[2] == ':' && IsDigit(t[0]) && IsDigit(t[1]) && IsDigit(t[3]) && IsDigit(t[4])
    && DigitsValue(t[..2]) < 24 && DigitsValue(t[3..]) < 60
  }

  lemma ValidClockSplit(t: string)
    requires ValidClock(t)
    ensures Split(t, ':') == [t[..2], t[3..]]
    ensures ReadableClock(t)
  {
    assert t == t[..2] + [':'] + t[3..];
    assert ':' !in t[..2] by { assert AllDigits(t[..2]); }
    assert ':' !in t[3..] by { assert AllDigits(t[3..]); }
    SplitAtFirst(t[..2], ':', t[3..]);
    SplitNoSeparator(t[3..], ':');
  }

  lemma DisplaySplit(hours12: nat, minutes: nat, period: string)
    requires period == "AM" || period == "PM"
    ensures var shown := Decimal(hours12) + ":" + Pad2(minutes) + " " + period;
      && Split(shown, ' ') == [Decimal(hours12) + ":" + Pad2(minutes), period]
      && Split(Decimal(hours12) + ":" + Pad2(minutes), ':') == [Decimal(hours12), Pad2(minutes)]
  {
    var time := Decimal(hours12) + ":" + Pad2(minutes);
    assert AllDigits(Pad2(minutes));
    assert ' ' !in time by { assert AllDigits(Decimal(hours12)); }
    SplitNoSeparator(period, ' ');
    SplitAtFirst(time, ' ', period);
    assert Decimal(hours12) + ":" + Pad2(minutes) + " " + period == time + [' '] + period;
    assert ':' !in Decimal(hours12) by { assert AllDigits(Decimal(hours12)); }
    assert ':' !in Pad2(minutes);
    SplitNoSeparator(Pad2(minutes), ':');
    SplitAtFirst(Decimal(hours12), ':', Pad2(minutes));
  }

  /** The hour and minute a display string reads back as. */
  lemma DisplayPieces(hours12: nat, minutes: nat, period: string)
    requires period == "AM" || period == "PM"
    ensures var pieces := Split(Decimal(hours12) + ":" + Pad2(minutes) + " " + period, ' ');
      && |pieces| == 2 && pieces[1] == period
      && ReadableClock(pieces[0])
      && DigitsValue(Split(pieces[0], ':')[0]) == hours12
      && DigitsValue(Split(pieces[0], ':')[1]) == minutes
  {
    DisplaySplit(hours12, minutes, period);
    DecimalRoundTrip(hours12);
    PaddedRoundTrip(minutes, 2);
  }

  function Period(pm: bool): string { if pm then "PM" else "AM" }

  /** Reading back a display string: the period moves the hour into 0..23. */
  lemma ConvertDisplay(hours12: nat, minutes: nat, pm: bool)
    ensures ReadableDisplayTime(Decimal(hours12) + ":" + Pad2(minutes) + " " + Period(pm))
    ensures ConvertTo24HourFormat(Decimal(hours12) + ":" + Pad2(minutes) + " " + Period(pm))
         == Pad2(if pm && hours12 != 12 then hours12 + 12
                 else if !pm && hours12 == 12 then 0
                 else hours12) + ":" + Pad2(minutes)
  {
    var period := Period(pm);
    DisplayPieces(hours12, minutes, period);
    assert "AM"[0] != "PM"[0];
    assert Some(period) == Some("PM") <==> pm;
    assert Some(period) == Some("AM") <==> !pm;
  }

  /** Twelve-hour clock arithmetic: shown hour and period give back the hour. */
  lemma HalfDay(hours: nat)
    requires hours < 24
    ensures var hours12 := if hours % 12 == 0 then 12 else hours % 12;
      var pm := hours >= 12;
      hours == if pm && hours12 != 12 then hours12 + 12 else if !pm && hours12 == 12 then 0 else hours12
  {
  }

  /** The twelve-hour display of an hour 0..23 and a minute. */
  function Shown(hours: nat, minutes: nat): string
  {
    Decimal(if hours % 12 == 0 then 12 else hours % 12) + ":" + Pad2(minutes) + " " + Period(hours >= 12)
  }

  /** The display string of a valid `HH:MM`. */
  lemma FormatValid(t: string)
    requires ValidClock(t)
    ensures ReadableClock(t)
    ensures FormatTimeForDisplay(t) == Shown(DigitsValue(t[..2]), DigitsValue(t[3..]))
  {
    ValidClockSplit(t);
  }

  /** Reading back the display of an hour 0..23 gives that hour, zero-padded. */
  lemma ShownRoundTrip(hours: nat, minutes: nat)
    requires hours < 24
    ensures ReadableDisplayTime(Shown(hours, minutes))
    ensures ConvertTo24HourFormat(Shown(hours, minutes)) == Pad2(hours) + ":" + Pad2(minutes)
  {
    var hours12: nat := if hours % 12 == 0 then 12 else hours % 12;
    ConvertDisplay(hours12, minutes, hours >= 12);
    HalfDay(hours);
  }

  /**
   * The display form shows the hour modulo 12 with 0 shown as 12, "AM" exactly before
   * noon, and two-digit minutes; converting it back gives the original `HH:MM`.
   */
  lemma DisplayRoundTrip(t: string)
    requires ValidClock(t)
    ensures ReadableClock(t)
    ensures ReadableDisplayTime(FormatTimeForDisplay(t))
    ensures ConvertTo24HourFormat(FormatTimeForDisplay(t)) == t
  {
    FormatValid(t);
    ShownRoundTrip(DigitsValue(t[..2]), DigitsValue(t[3..]));
    ClockParts(t);
  }

  lemma ClockParts(t: string)
    requires ValidClock(t)
    ensures t == Pad2(DigitsValue(t[..2])) + ":" + Pad2(DigitsValue(t[3..]))
  {
    PaddedPieces(t, t[..2], t[3..]);
  }

  lemma PaddedPieces(t: string, hh: string, mm: string)
    requires |t| == 5 && t[2] == ':' && hh == t[..2] && mm == t[3..] && AllDigits(hh) && AllDigits(mm)
    ensures t == Pad2(DigitsValue(hh)) + ":" + Pad2(DigitsValue(mm))
  {
    JoinAtColon(t, hh, mm);
    TwoDigitsArePadded(hh);
    TwoDigitsArePadded(mm);
  }

  lemma JoinAtColon(t: string, hh: string, mm: string)
    requires |t| == 5 && t[2] == ':' && hh == t[..2] && mm == t[3..]
    ensures t == hh + ":" + mm
  {
  }
}
