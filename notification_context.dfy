/** The notification preferences shared through a context: their defaults, the partial
    updates merged into them, the permission request, the gate in front of a browser
    notification, and the copy kept in local storage. */
module NotificationContext {
  import opened Habits
  import opened DateFormats
  import opened Toasts

  datatype Preferences = Preferences(
    browserNotifications: bool,
    emailDigests: bool,
    timeBasedAlerts: bool,
    /** `HH:mm`, 24-hour. */
    reminderTime: string)

  /** `Partial<NotificationPreferences>`: each field supplied or not. */
  datatype PartialPreferences = PartialPreferences(
    browserNotifications: Option<bool>,
    emailDigests: Option<bool>,
    timeBasedAlerts: Option<bool>,
    reminderTime: Option<string>)

  const PreferencesKey: string := "notificationPreferences"

  /** With nothing saved: every flag off, reminders at 8 PM. */
  const Defaults: Preferences := Preferences(false, false, false, "20:00")

  /** The default reminder time is a time of day: 20 hours after midnight. */
  lemma DefaultReminderTime()
    ensures !Defaults.browserNotifications && !Defaults.emailDigests && !Defaults.timeBasedAlerts
    ensures Defaults.reminderTime == TimeString(20 * 60)
    ensures ParseTime(Defaults.reminderTime) == Some(1200)
  {
    TimeRoundTrip(1200);
  }

  /** `o ?? x` for an optional field: the supplied value, or `x`. */
  function OrElse<T>(o: Option<T>, x: T): T {
    if o.Some? then o.value else x
  }

  /** `{ ...prev, ...newPrefs }`: a supplied field overrides, any other keeps its value. */
  function Merge(prev: Preferences, p: PartialPreferences): (r: Preferences)
    ensures p.browserNotifications.None? ==> r.browserNotifications == prev.browserNotifications
    ensures p.browserNotifications.Some? ==> r.browserNotifications == p.browserNotifications.value
    ensures p.emailDigests.None? ==> r.emailDigests == prev.emailDigests
    ensures p.emailDigests.Some? ==> r.emailDigests == p.emailDigests.value
    ensures p.timeBasedAlerts.None? ==> r.timeBasedAlerts == prev.timeBasedAlerts
    ensures p.timeBasedAlerts.Some? ==> r.timeBasedAlerts == p.timeBasedAlerts.value
    ensures p.reminderTime.None? ==> r.reminderTime == prev.reminderTime
    ensures p.reminderTime.Some? ==> r.reminderTime == p.reminderTime.value
  {
    Preferences(
      OrElse(p.browserNotifications, prev.browserNotifications),
      OrElse(p.emailDigests, prev.emailDigests),
      OrElse(p.timeBasedAlerts, prev.timeBasedAlerts),
      OrElse(p.reminderTime, prev.reminderTime))
  }

  const NothingSupplied: PartialPreferences := PartialPreferences(None, None, None, None)

  /** Two partial updates as one: the later one's fields win. */
  function Then(p: PartialPreferences, q: PartialPreferences): PartialPreferences {
    PartialPreferences(
      if q.browserNotifications.Some? then q.browserNotifications else p.browserNotifications,
      if q.emailDigests.Some? then q.emailDigests else p.emailDigests,
      if q.timeBasedAlerts.Some? then q.timeBasedAlerts else p.timeBasedAlerts,
      if q.reminderTime.Some? then q.reminderTime else p.reminderTime)
  }

  /** An update that supplies nothing changes nothing. */
  lemma MergeNothing(prev: Preferences)
    ensures Merge(prev, NothingSupplied) == prev
  {
  }

  /** Applying the same update twice is applying it once. */
  lemma MergeIdempotent(prev: Preferences, p: PartialPreferences)
    ensures Merge(Merge(prev, p), p) == Merge(prev, p)
  {
  }

  /** Two updates in a row are the one update that takes the later value of each field. */
  lemma MergeThen(prev: Preferences, p: PartialPreferences, q: PartialPreferences)
    ensures Merge(Merge(prev, p), q) == Merge(prev, Then(p, q))
  {
  }

  /** An update that supplies every field replaces the whole record. */
  lemma MergeEverything(prev: Preferences, all: Preferences)
    ensures Merge(prev, PartialPreferences(Some(all.browserNotifications), Some(all.emailDigests),
                                           Some(all.timeBasedAlerts), Some(all.reminderTime))) == all
  {
  }

  /** What `Notification.requestPermission()` does: resolves with a permission, or throws. */
  datatype PermissionRequest = Answer(permission: string) | Threw

  const EnabledToast: Toast := Toast("Browser notifications enabled!", "", false)
  const DeniedToast: Toast := Toast("Please enable notifications in your browser settings.", "", true)
  const ErrorToast: Toast := Toast("Failed to enable notifications.", "", true)

  /** A browser notification as shown. */
  datatype BrowserNotification = BrowserNotification(title: string, body: string, icon: string)

  /** The provider: the preferences and the local storage they are written to. A stored
      record is the one `JSON.stringify` wrote. */
  class Provider {
    var preferences: Preferences
    var storage: map<string, Preferences>
    /** The toasts shown, oldest first. */
    var toasts: seq<Toast>

    /** The effect has run: the stored record is the current one. */
    predicate Valid()
      reads this
    {
      PreferencesKey in storage && storage[PreferencesKey] == preferences
    }

    /** Mounting: the saved record when there is one, the defaults otherwise; then the
        effect writes it back, and nothing else in storage changes. */
    constructor (initial: map<string, Preferences>)
      ensures preferences == (if PreferencesKey in initial then initial[PreferencesKey] else Defaults)
      ensures storage == initial[PreferencesKey := preferences]
      ensures toasts == []
      ensures Valid()
    {
      var p := Defaults;
      if PreferencesKey in initial {
        p := initial[PreferencesKey];
      }
      preferences := p;
      storage := initial[PreferencesKey := p];
      toasts := [];
    }

    /** `updatePreferences`: the update merged into the preferences, and the result
        written to storage. */
    method UpdatePreferences(p: PartialPreferences)
      modifies this`preferences, this`storage
      ensures preferences == Merge(old(preferences), p)
      ensures storage == old(storage)[PreferencesKey := preferences]
      ensures Valid()
    {
      preferences := Merge(preferences, p);
      storage := storage[PreferencesKey := preferences];
    }

    /** `requestNotificationPermission`: only a "granted" answer turns browser
        notifications on (and is written to storage), with a success toast; any other
        answer, or a throw, leaves the preferences and the storage alone and shows an error
        toast. */
    method RequestPermission(request: PermissionRequest)
      requires Valid()
      modifies this
      ensures request == Answer("granted") ==>
                preferences == old(preferences).(browserNotifications := true)
                && toasts == old(toasts) + [EnabledToast]
      ensures request.Answer? && request.permission != "granted" ==>
                preferences == old(preferences) && toasts == old(toasts) + [DeniedToast]
      ensures request.Threw? ==> preferences == old(preferences) && toasts == old(toasts) + [ErrorToast]
      ensures storage == old(storage)[PreferencesKey := preferences]
      ensures Valid()
    {
      match request
      case Threw =>
        toasts := toasts + [ErrorToast];
      case Answer(permission) =>
        if permission == "granted" {
          preferences := preferences.(browserNotifications := true);
          storage := storage[PreferencesKey := preferences];
          toasts := toasts + [EnabledToast];
        } else {
          toasts := toasts + [DeniedToast];
        }
    }

    /** `sendBrowserNotification`, with `permission` the browser's current
        `Notification.permission`: a notification with the favicon is shown exactly when the
        preference is on and permission is "granted". */
    method SendBrowserNotification(title: string, body: string, permission: string)
      returns (shown: Option<BrowserNotification>)
      ensures shown.Some? <==> preferences.browserNotifications && permission == "granted"
      ensures shown.Some? ==> shown.value == BrowserNotification(title, body, "/favicon.ico")
    {
      if preferences.browserNotifications && permission == "granted" {
        shown := Some(BrowserNotification(title, body, "/favicon.ico"));
      } else {
        shown := None;
      }
    }
  }

  /** A reload reads back the preferences last written. */
  method ReloadKeepsPreferences(provider: Provider) returns (reloaded: Provider)
    requires provider.Valid()
    ensures reloaded.preferences == provider.preferences && reloaded.storage == provider.storage
  {
    reloaded := new Provider(provider.storage);
    assert provider.storage[PreferencesKey := provider.preferences] == provider.storage;
  }

  /** Granting permission on a fresh install turns on browser notifications and nothing
      else, and the next notification is shown. */
  method GrantOnFreshInstall(initial: map<string, Preferences>) returns (shown: Option<BrowserNotification>)
    requires PreferencesKey !in initial
    ensures shown == Some(BrowserNotification("Reminder", "", "/favicon.ico"))
  {
    var provider := new Provider(initial);
    provider.RequestPermission(Answer("granted"));
    assert provider.preferences == Preferences(true, false, false, "20:00");
    shown := provider.SendBrowserNotification("Reminder", "", "granted");
  }

  /** What `useNotifications` gives: the context, or the error it throws outside a
      provider. */
  datatype HookResult<C> = Context(context: C) | HookError(message: string)

  const OutsideProviderMessage: string := "useNotifications must be used within a NotificationProvider"

  /** `useNotifications`: the context when there is a provider above, an error otherwise. */
  function UseNotifications<C>(context: Option<C>): (r: HookResult<C>)
    ensures r.Context? <==> context.Some?
    ensures r.Context? ==> r.context == context.value
    ensures r.HookError? ==> r.message == OutsideProviderMessage
  {
    if context.None? then HookError(OutsideProviderMessage) else Context(context.value)
  }
}
