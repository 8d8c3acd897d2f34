/**
 * The settings screen (`SettingsViewModel`): write-through preferences and the reminder policy.
 *
 * Each `didSet` observer becomes a setter method. The policy update that the observers start in a
 * `Task` runs at once, as the next step of the setter.
 */
module Settings {
  import opened Wrappers
  import opened Dates
  import opened Preferences
  import opened Notifications

  /** `updateNotifications`' decision: a reminder at the stored time exactly when enabled and authorised. */
  function ReminderPolicy(enabled: bool, authorized: bool, hour: int, minute: int): Option<Reminder> {
    if enabled && authorized then Some(Reminder(hour, minute)) else None
  }

  /** A reminder is pending after the policy runs iff notifications are enabled and authorised, and then at the stored time. */
  lemma ReminderPolicySpec(enabled: bool, authorized: bool, hour: int, minute: int)
    ensures ReminderPolicy(enabled, authorized, hour, minute).Some? <==> enabled && authorized
    ensures ReminderPolicy(enabled, authorized, hour, minute).Some? ==>
              ReminderPolicy(enabled, authorized, hour, minute).value == Reminder(hour, minute)
    ensures !enabled ==> ReminderPolicy(enabled, authorized, hour, minute) == None
    ensures !authorized ==> ReminderPolicy(enabled, authorized, hour, minute) == None
  {
  }

  class SettingsViewModel {
    var userDefaultsService: UserDefaultsService?
    var notificationService: NotificationService?
    var isNotificationEnabled: bool
    var notificationTime: Timestamp
    var selectedTheme: AppTheme

    /** The objects the view model works on. */
    ghost function Repr(): set<object>
      reads this
    {
      {this}
      + (if userDefaultsService != null then {userDefaultsService, userDefaultsService.defaults} else {})
      + (if notificationService != null then {notificationService} else {})
    }

    ghost predicate Valid()
      reads Repr()
    {
      userDefaultsService != null ==> userDefaultsService.Valid()
    }

    /** With both services attached, the pending reminder and the badge are what the policy decides for the current state. */
    ghost predicate PolicyApplied()
      reads this, userDefaultsService, notificationService
    {
      notificationService != null && userDefaultsService != null ==>
        && notificationService.pendingReminder ==
             ReminderPolicy(isNotificationEnabled, notificationService.isAuthorized,
                            userDefaultsService.notificationHour, userDefaultsService.notificationMinute)
        && notificationService.badgeCount == 0
    }

    /** The initial state, before `configure`: `now` is the `Date()` the time starts at. */
    constructor (now: Timestamp)
      ensures Valid() && userDefaultsService == null && notificationService == null
      ensures !isNotificationEnabled && notificationTime == now && selectedTheme == System
      ensures !IsNotificationAuthorized()
    {
      userDefaultsService, notificationService := null, null;
      isNotificationEnabled, notificationTime, selectedTheme := false, now, System;
    }

    /** `isNotificationAuthorized`: the service's flag, `false` without a service. */
    predicate IsNotificationAuthorized()
      reads this, notificationService
    {
      notificationService != null && notificationService.isAuthorized
    }

    /** `updateNotifications`: schedule the reminder when enabled and authorised, otherwise cancel everything. */
    method UpdateNotifications()
      requires Valid()
      modifies notificationService
      ensures Valid() && PolicyApplied()
      ensures notificationService != null ==> notificationService.isAuthorized == old(notificationService.isAuthorized)
      ensures notificationService != null && userDefaultsService == null ==> unchanged(notificationService)
    {
      if notificationService == null || userDefaultsService == null {
        return;
      }
      if isNotificationEnabled && notificationService.isAuthorized {
        notificationService.ScheduleDailyReminder(userDefaultsService.notificationHour, userDefaultsService.notificationMinute);
      } else {
        notificationService.CancelAllNotifications();
      }
    }

    /** Setting `isNotificationEnabled`: write it through, then run the policy. */
    method SetNotificationEnabled(b: bool)
      requires Valid()
      modifies Repr()
      ensures Valid() && PolicyApplied()
      ensures userDefaultsService == old(userDefaultsService) && notificationService == old(notificationService)
      ensures isNotificationEnabled == b
      ensures notificationTime == old(notificationTime) && selectedTheme == old(selectedTheme)
      ensures userDefaultsService != null ==>
                && userDefaultsService.isNotificationEnabled == b
                && userDefaultsService.notificationHour == old(userDefaultsService.notificationHour)
                && userDefaultsService.notificationMinute == old(userDefaultsService.notificationMinute)
                && userDefaultsService.selectedTheme == old(userDefaultsService.selectedTheme)
                && userDefaultsService.defaults.values ==
                     old(userDefaultsService.defaults.values)[IsNotificationEnabledKey := BoolValue(b)]
      ensures notificationService != null ==> notificationService.isAuthorized == old(notificationService.isAuthorized)
      ensures notificationService != null && userDefaultsService == null ==> unchanged(notificationService)
    {
      isNotificationEnabled := b;
      if userDefaultsService != null {
        userDefaultsService.SetNotificationEnabled(b);
      }
      UpdateNotifications();
    }

    /** Setting `notificationTime`: write it through (as an hour and a minute), then run the policy. */
    method SetNotificationTime(t: Timestamp)
      requires Valid()
      modifies Repr()
      ensures Valid() && PolicyApplied()
      ensures userDefaultsService == old(userDefaultsService) && notificationService == old(notificationService)
      ensures notificationTime == t
      ensures isNotificationEnabled == old(isNotificationEnabled) && selectedTheme == old(selectedTheme)
      ensures userDefaultsService != null ==>
                && userDefaultsService.notificationHour == Hour(t)
                && userDefaultsService.notificationMinute == Minute(t)
                && userDefaultsService.isNotificationEnabled == old(userDefaultsService.isNotificationEnabled)
                && userDefaultsService.selectedTheme == old(userDefaultsService.selectedTheme)
      ensures notificationService != null ==> notificationService.isAuthorized == old(notificationService.isAuthorized)
      ensures notificationService != null && userDefaultsService == null ==> unchanged(notificationService)
    {
      notificationTime := t;
      if userDefaultsService != null {
        userDefaultsService.SetNotificationTime(t);
      }
      UpdateNotifications();
    }

    /** Setting `selectedTheme`: write it through; the reminder is not touched. */
    method SetSelectedTheme(theme: AppTheme)
      requires Valid()
      modifies this, userDefaultsService, if userDefaultsService != null then {userDefaultsService.defaults} else {}
      ensures Valid()
      ensures userDefaultsService == old(userDefaultsService) && notificationService == old(notificationService)
      ensures selectedTheme == theme
      ensures isNotificationEnabled == old(isNotificationEnabled) && notificationTime == old(notificationTime)
      ensures userDefaultsService != null ==>
                && userDefaultsService.selectedTheme == theme
                && userDefaultsService.isNotificationEnabled == old(userDefaultsService.isNotificationEnabled)
                && userDefaultsService.notificationHour == old(userDefaultsService.notificationHour)
                && userDefaultsService.notificationMinute == old(userDefaultsService.notificationMinute)
                && userDefaultsService.defaults.values ==
                     old(userDefaultsService.defaults.values)[SelectedThemeKey := StringValue(ThemeRawValue(theme))]
    {
      selectedTheme := theme;
      if userDefaultsService != null {
        userDefaultsService.SetSelectedTheme(theme);
      }
    }

    /**
     * `configure(userDefaultsService:notificationService:)`: attach both services and copy the three
     * preferences through their setters, so the stored values are written back and the policy runs.
     */
    method Configure(defaults: UserDefaultsService, notifications: NotificationService)
      requires defaults.Valid()
      modifies this, defaults, defaults.defaults, notifications
      ensures Valid() && PolicyApplied()
      ensures userDefaultsService == defaults && notificationService == notifications
      ensures isNotificationEnabled == old(defaults.isNotificationEnabled)
      ensures notificationTime == DateFromTimeOfDay(old(defaults.notificationHour), old(defaults.notificationMinute))
      ensures selectedTheme == old(defaults.selectedTheme)
      ensures defaults.isNotificationEnabled == old(defaults.isNotificationEnabled)
      ensures defaults.selectedTheme == old(defaults.selectedTheme)
      ensures 0 <= old(defaults.notificationHour) < 24 && 0 <= old(defaults.notificationMinute) < 60 ==>
                defaults.notificationHour == old(defaults.notificationHour) &&
                defaults.notificationMinute == old(defaults.notificationMinute)
      ensures notifications.isAuthorized == old(notifications.isAuthorized)
      ensures IsNotificationAuthorized() == notifications.isAuthorized
    {
      userDefaultsService := defaults;
      notificationService := notifications;
      ghost var hour, minute := defaults.notificationHour, defaults.notificationMinute;
      SetNotificationEnabled(defaults.isNotificationEnabled);
      var time := defaults.NotificationTime();
      SetNotificationTime(time);
      if 0 <= hour < 24 && 0 <= minute < 60 {
        TimeOfDayRoundTrip(hour, minute);
      }
      SetSelectedTheme(defaults.selectedTheme);
    }

    /**
     * `requestNotificationPermission`: ask for authorisation (`answer` is the user's decision, none
     * when the request fails) and turn reminders on when it is granted.
     */
    method RequestNotificationPermission(answer: Option<bool>)
      requires Valid()
      modifies Repr()
      ensures Valid()
      ensures userDefaultsService == old(userDefaultsService) && notificationService == old(notificationService)
      ensures notificationTime == old(notificationTime) && selectedTheme == old(selectedTheme)
      ensures notificationService == null ==> isNotificationEnabled == old(isNotificationEnabled)
      ensures notificationService != null ==>
                notificationService.isAuthorized == (if answer.Some? then answer.value else old(notificationService.isAuthorized))
      ensures notificationService != null && answer == Some(true) ==> isNotificationEnabled && PolicyApplied()
      ensures answer != Some(true) ==> isNotificationEnabled == old(isNotificationEnabled)
      ensures answer != Some(true) && notificationService != null ==>
                notificationService.pendingReminder == old(notificationService.pendingReminder) &&
                notificationService.badgeCount == old(notificationService.badgeCount)
      ensures answer != Some(true) && userDefaultsService != null ==>
                unchanged(userDefaultsService) && unchanged(userDefaultsService.defaults)
      ensures answer == Some(true) && notificationService != null && userDefaultsService != null ==>
                && userDefaultsService.isNotificationEnabled
                && userDefaultsService.notificationHour == old(userDefaultsService.notificationHour)
                && userDefaultsService.notificationMinute == old(userDefaultsService.notificationMinute)
                && userDefaultsService.selectedTheme == old(userDefaultsService.selectedTheme)
                && userDefaultsService.defaults.values ==
                     old(userDefaultsService.defaults.values)[IsNotificationEnabledKey := BoolValue(true)]
    {
      if notificationService == null {
        return;
      }
      var granted := notificationService.RequestAuthorization(answer);
      if granted {
        SetNotificationEnabled(true);
      }
    }
  }
}
