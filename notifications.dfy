/**
 * What the settings screen relies on from the notification centre (`NotificationService`):
 * whether notifications are authorised, the one pending daily reminder, and the app badge.
 * The operating system's answers are parameters; scheduling and clearing the badge succeed.
 */
module Notifications {
  import opened Wrappers

  /** A repeating daily reminder at `hour:minute` (`"daily-journal-reminder"`). */
  datatype Reminder = Reminder(hour: int, minute: int)

  class NotificationService {
    /** `isAuthorized`. */
    var isAuthorized: bool
    /** The pending reminder request, if any. */
    var pendingReminder: Option<Reminder>
    /** The app icon's badge count. */
    var badgeCount: int

    /** `init`, whose status check finds `authorized` and a notification centre holding `pending` and `badge`. */
    constructor (authorized: bool, pending: Option<Reminder>, badge: int)
      ensures isAuthorized == authorized && pendingReminder == pending && badgeCount == badge
    {
      isAuthorized, pendingReminder, badgeCount := authorized, pending, badge;
    }

    /**
     * `requestAuthorization`: `answer` is the user's decision, none when the request fails;
     * a failed request changes nothing and reads as refused.
     */
    method RequestAuthorization(answer: Option<bool>) returns (granted: bool)
      modifies this
      ensures granted == answer.GetOr(false)
      ensures isAuthorized == (if answer.Some? then answer.value else old(isAuthorized))
      ensures pendingReminder == old(pendingReminder) && badgeCount == old(badgeCount)
    {
      if answer.Some? {
        isAuthorized := answer.value;
        granted := answer.value;
      } else {
        granted := false;
      }
    }

    /** `checkAuthorizationStatus`, given whether the current status is `.authorized`. */
    method CheckAuthorizationStatus(authorized: bool)
      modifies this
      ensures isAuthorized == authorized
      ensures pendingReminder == old(pendingReminder) && badgeCount == old(badgeCount)
    {
      isAuthorized := authorized;
    }

    /** `scheduleDailyReminder(hour:minute:)`: cancel everything, then add the one reminder. */
    method ScheduleDailyReminder(hour: int, minute: int)
      modifies this
      ensures pendingReminder == Some(Reminder(hour, minute)) && badgeCount == 0
      ensures isAuthorized == old(isAuthorized)
    {
      CancelAllNotifications();
      pendingReminder := Some(Reminder(hour, minute));
    }

    /** `cancelAllNotifications`: remove the pending reminder and clear the badge. */
    method CancelAllNotifications()
      modifies this
      ensures pendingReminder == None && badgeCount == 0
      ensures isAuthorized == old(isAuthorized)
    {
      pendingReminder := None;
      ClearBadge();
    }

    /** `clearBadge`. */
    method ClearBadge()
      modifies this
      ensures badgeCount == 0
      ensures isAuthorized == old(isAuthorized) && pendingReminder == old(pendingReminder)
    {
      badgeCount := 0;
    }
  }
}
