/**
 * ZenoxNotificationManager: the ongoing "Zen Active" notification with the
 * time left in a session, and the notification channel it is posted on.
 *
 * The system's notification service is a pair of fields of the class (the
 * channel registered under the Zenox channel id, and the notification
 * shown under the Zenox notification id); the platform answers the
 * manager reads (notifications enabled, the SDK level, the permission, a
 * launch intent) are parameters.
 */
module ZenoxNotification {
  import opened Common

  const CHANNEL_ID: string := "zenox_active_session_channel"
  const NOTIFICATION_ID: int := 20261
  /** Build.VERSION_CODES.O and TIRAMISU. */
  const SDK_O: int := 26
  const SDK_TIRAMISU: int := 33

  // ---------------------------------------------------------------------
  // formatRemaining
  // ---------------------------------------------------------------------

  /** Long.toInt(): the low 32 bits read as a signed number. */
  function LongToInt(x: int): (r: int)
    ensures INT_MIN <= r <= INT_MAX
    ensures (r - x) % 0x1_0000_0000 == 0
    ensures INT_MIN <= x <= INT_MAX ==> r == x
  {
    (x - INT_MIN) % 0x1_0000_0000 + INT_MIN
  }

  /**
   * formatRemaining: the remaining time, negative values taken as 0, in
   * whole seconds (cut to a 32-bit Int), shown as "%02d:%02d" minutes and
   * seconds.
   */
  function FormatRemaining(remainingMillis: int): (s: string)
    ensures remainingMillis <= 0 ==> s == "00:00"
    ensures 0 <= remainingMillis / 1000 <= INT_MAX ==>
              var parts := Split(s, ':');
              && |parts| == 2
              && AllDigits(parts[0]) && |parts[0]| >= 2
              && AllDigits(parts[1]) && |parts[1]| == 2
              && DigitsValue(parts[1]) < 60
              && DigitsValue(parts[0]) * 60 + DigitsValue(parts[1]) == remainingMillis / 1000
  {
    var totalSec := LongToInt(Max(remainingMillis, 0) / 1000);
    if remainingMillis <= 0 then
      assert totalSec == 0;
      assert Pad2(0) == "00";
      Base60Clock(totalSec)
    else
      if remainingMillis / 1000 <= INT_MAX then
        Base60ClockReadBack(totalSec);
        Base60Clock(totalSec)
      else Base60Clock(totalSec)
  }

  // ---------------------------------------------------------------------
  // canPostNotifications
  // ---------------------------------------------------------------------

  /** Notifications are enabled and, from Android 13 on, POST_NOTIFICATIONS is granted. */
  predicate CanPostNotifications(enabled: bool, sdk: int, permissionGranted: bool)
  {
    enabled && (sdk < SDK_TIRAMISU || permissionGranted)
  }

  /** Disabled notifications always block; the permission matters only from Android 13 on. */
  lemma CanPostNotificationsCases(enabled: bool, sdk: int, permissionGranted: bool)
    ensures !enabled ==> !CanPostNotifications(enabled, sdk, permissionGranted)
    ensures enabled && sdk < SDK_TIRAMISU ==> CanPostNotifications(enabled, sdk, permissionGranted)
    ensures sdk >= SDK_TIRAMISU ==>
              (CanPostNotifications(enabled, sdk, permissionGranted) <==> enabled && permissionGranted)
  {
  }

  // ---------------------------------------------------------------------
  // The notification
  // ---------------------------------------------------------------------

  datatype Channel = Channel(id: string, name: string, lowImportance: bool, description: string, showBadge: bool)

  const SESSION_CHANNEL: Channel :=
    Channel(CHANNEL_ID, "Zen Sessions", true, "Shows active Zen session status and countdown.", false)

  /**
   * What showOrUpdate posts: the ongoing, low-priority, alert-once
   * notification, opening the app when a launch intent exists.
   */
  datatype ZenNotification = ZenNotification(
    channelId: string, title: string, body: string, bigText: string,
    ongoing: bool, autoCancel: bool, onlyAlertOnce: bool, opensApp: bool)

  function SessionNotification(profileName: string, remainingMillis: int, hasLaunchIntent: bool): (n: ZenNotification)
    ensures n.title == "Zen Active - " + profileName
    ensures n.body == "Time left: " + FormatRemaining(remainingMillis)
    ensures |n.body| <= |n.bigText| && n.bigText[..|n.body|] == n.body
    ensures n.channelId == CHANNEL_ID && n.ongoing && !n.autoCancel && n.onlyAlertOnce
    ensures n.opensApp == hasLaunchIntent
  {
    var body := "Time left: " + FormatRemaining(remainingMillis);
    ZenNotification(CHANNEL_ID, "Zen Active - " + profileName, body,
                    body + "\nKeep breathing, one focused step at a time.", true, false, true, hasLaunchIntent)
  }

  class Notifier {
    /** The channel the system holds under CHANNEL_ID. */
    var channel: Option<Channel>
    /** How many times the manager registered a channel. */
    var channelCreations: nat
    /** The notification the system shows under NOTIFICATION_ID. */
    var shown: Option<ZenNotification>

    constructor (existing: Option<Channel>)
      ensures channel == existing && channelCreations == 0 && shown == None
    {
      channel, channelCreations, shown := existing, 0, None;
    }

    /**
     * ensureChannel: nothing below Android 8, nothing when a channel is
     * already registered under the id; otherwise registers the session
     * channel.
     */
    method EnsureChannel(sdk: int)
      modifies this
      ensures sdk < SDK_O || old(channel).Some? ==> channel == old(channel) && channelCreations == old(channelCreations)
      ensures sdk >= SDK_O && old(channel).None? ==>
                channel == Some(SESSION_CHANNEL) && channelCreations == old(channelCreations) + 1
      ensures shown == old(shown)
    {
      if sdk < SDK_O {
        return;
      }
      if channel.Some? {
        return;
      }
      channel := Some(SESSION_CHANNEL);
      channelCreations := channelCreations + 1;
    }

    /**
     * showOrUpdate: without the right to post it does nothing at all;
     * otherwise it makes sure the channel exists and replaces the shown
     * notification with the session's.
     */
    method ShowOrUpdate(profileName: string, remainingMillis: int, enabled: bool, sdk: int,
                        permissionGranted: bool, hasLaunchIntent: bool)
      modifies this
      ensures !CanPostNotifications(enabled, sdk, permissionGranted) ==>
                channel == old(channel) && channelCreations == old(channelCreations) && shown == old(shown)
      ensures CanPostNotifications(enabled, sdk, permissionGranted) ==>
                shown == Some(SessionNotification(profileName, remainingMillis, hasLaunchIntent))
      ensures CanPostNotifications(enabled, sdk, permissionGranted) ==>
                channel == (if sdk >= SDK_O && old(channel).None? then Some(SESSION_CHANNEL) else old(channel))
                && channelCreations == old(channelCreations) + (if sdk >= SDK_O && old(channel).None? then 1 else 0)
      ensures old(channel).Some? ==> channel == old(channel) && channelCreations == old(channelCreations)
      ensures CanPostNotifications(enabled, sdk, permissionGranted) && sdk >= SDK_O ==> channel.Some?
    {
      if !CanPostNotifications(enabled, sdk, permissionGranted) {
        return;
      }
      EnsureChannel(sdk);
      shown := Some(SessionNotification(profileName, remainingMillis, hasLaunchIntent));
    }

    /** cancel: takes the notification away. */
    method Cancel()
      modifies this
      ensures shown == None && channel == old(channel) && channelCreations == old(channelCreations)
    {
      shown := None;
    }
  }
}
