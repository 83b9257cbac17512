/**
 * The operations of src/lib/notification-system.ts on the store. The browser's
 * notification service is reduced to what the code observes of it: whether it exists,
 * the answer to a permission request, and whether creating a notification throws.
 */
module NotificationSystem {
  import opened Wrappers
  import opened Text
  import opened Notifications
  import opened Storage

  /** `getNotificationPreferences`: the stored record, or the defaults when none is stored. */
  method GetNotificationPreferences(store: Store) returns (prefs: Prefs)
    ensures prefs == CurrentPrefs(store.notificationPrefs)
    ensures store.notificationPrefs.None? ==> prefs.status == Pending && prefs.reminderCount == 1
  {
    if store.notificationPrefs.Some? {
      prefs := store.notificationPrefs.value;
    } else {
      prefs := DEFAULT_PREFERENCES;
    }
  }

  /** `saveNotificationPreferences`: stores and returns the current record overridden by the given keys. */
  method SaveNotificationPreferences(store: Store, preferences: PrefsPatch) returns (updated: Prefs)
    modifies store`notificationPrefs
    ensures updated == ApplyPatch(CurrentPrefs(old(store.notificationPrefs)), preferences)
    ensures store.notificationPrefs == Some(updated)
  {
    var currentPrefs := GetNotificationPreferences(store);
    updated := ApplyPatch(currentPrefs, preferences);
    store.notificationPrefs := Some(updated);
  }

  /**
   * `requestNotificationPermission`: without a notification service the answer is denied;
   * otherwise the browser's answer (`None` when the request throws, read as denied) is
   * returned and, when there is one, stored with the time of asking.
   */
  method RequestNotificationPermission(store: Store, supported: bool, answer: Option<PermissionStatus>, now: int)
    returns (status: PermissionStatus)
    modifies store`notificationPrefs
    ensures status == if supported && answer.Some? then answer.value else Denied
    ensures store.notificationPrefs ==
      if supported && answer.Some?
      then Some(ApplyPatch(CurrentPrefs(old(store.notificationPrefs)), NO_CHANGE.(status := answer, lastAsked := Some(now))))
      else old(store.notificationPrefs)
  {
    if !supported {
      return Denied;
    }
    if answer.None? {
      return Denied;
    }
    var _ := SaveNotificationPreferences(store, NO_CHANGE.(status := answer, lastAsked := Some(now)));
    status := answer.value;
  }

  /** `shouldShowDailyPermissionPopup`, given today's `toDateString()`. */
  method ShouldShowDailyPermissionPopup(store: Store, todayText: string) returns (show: bool)
    ensures show == ShouldShowPopup(CurrentPrefs(store.notificationPrefs), todayText)
  {
    var prefs := GetNotificationPreferences(store);
    if prefs.status == Granted || prefs.showDailyPermissionPopup == Some(false) {
      return false;
    }
    if prefs.lastPermissionPopupDate == Some(todayText) {
      return false;
    }
    show := prefs.status == Denied || prefs.status == Pending;
  }

  /** `markPermissionPopupShown`: stores today's `toDateString()` as the last popup date. */
  method MarkPermissionPopupShown(store: Store, todayText: string)
    modifies store`notificationPrefs
    ensures store.notificationPrefs == Some(ApplyPatch(CurrentPrefs(old(store.notificationPrefs)), MarkShownPatch(todayText)))
  {
    var _ := SaveNotificationPreferences(store, NO_CHANGE.(lastPermissionPopupDate := Some(todayText)));
  }

  /** `sendTestNotification`: shown exactly when permission is granted and creating it does not throw. */
  method SendTestNotification(store: Store, notificationFails: bool) returns (sent: bool)
    ensures sent <==> CurrentPrefs(store.notificationPrefs).status == Granted && !notificationFails
  {
    var prefs := GetNotificationPreferences(store);
    if prefs.status != Granted {
      return false;
    }
    sent := !notificationFails;
  }

  /**
   * `sendReminderNotification`: with permission, shows the next message of the morning or
   * evening rotation and stores the time and the next message index.
   */
  method SendReminderNotification(store: Store, isMorning: bool, now: int, notificationFails: bool)
    returns (sent: bool, message: Option<string>)
    modifies store`notificationPrefs
    ensures var r := SendReminder(CurrentPrefs(old(store.notificationPrefs)), isMorning, now, notificationFails);
      && sent == r.sent && message == r.message
      && store.notificationPrefs == if r.sent then Some(r.prefs) else old(store.notificationPrefs)
  {
    var prefs := GetNotificationPreferences(store);
    if prefs.status != Granted {
      return false, None;
    }
    var messages := NOTIFICATION_MESSAGES;
    if isMorning {
      messages := MORNING_MESSAGES + NOTIFICATION_MESSAGES;
    } else {
      messages := EVENING_MESSAGES + NOTIFICATION_MESSAGES;
    }
    var messageIndex := prefs.messageIndex.GetOr(0) % |messages|;
    if notificationFails {
      return false, None;
    }
    var _ := SaveNotificationPreferences(store, NO_CHANGE.(lastNotified := Some(now), messageIndex := Some(messageIndex + 1)));
    sent, message := true, Some(messages[messageIndex]);
  }

  /**
   * `checkNotificationSchedule` at the given local hour and minute: the morning reminder
   * when the time matches, then the evening one when two reminders are chosen and the
   * time matches. A store without preferences has no permission and stays as it is.
   */
  method CheckNotificationSchedule(store: Store, hour: nat, minute: nat, now: int, notificationFails: bool)
    modifies store`notificationPrefs
    ensures store.notificationPrefs ==
      match old(store.notificationPrefs)
      case None => None
      case Some(p) => Some(CheckSchedule(p, hour, minute, now, notificationFails))
  {
    var prefs := GetNotificationPreferences(store);
    if prefs.status != Granted {
      return;
    }
    var currentTime := Pad2(hour) + ":" + Pad2(minute);
    if prefs.morningTime.Some? && prefs.morningTime == Some(currentTime) {
      var _, _ := SendReminderNotification(store, true, now, notificationFails);
    }
    if prefs.reminderCount == 2 && prefs.eveningTime.Some? && prefs.eveningTime == Some(currentTime) {
      var _, _ := SendReminderNotification(store, false, now, notificationFails);
    }
  }
}
