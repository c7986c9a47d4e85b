/** The state changes the user interface makes: flipping the theme between light
    and dark, starting to watch a channel, and the once-a-minute check that
    announces a program when it starts. Rendering, players and timers are not
    modelled. */
module Ui {
  import opened Wrappers
  import opened Json
  import opened Catalog
  import opened Channels
  import opened Preferences

  /** `{ ...theme, mode: theme.mode === "light" ? "dark" : "light" }`; reading
      `mode` of a missing or `null` theme throws. */
  function FlipTheme(theme: Option<Value>): (r: Result<Value, JsError>)
    ensures r.Err? <==> theme == None || theme == Some(Null)
    ensures r.Ok? ==> r.value.Obj? && r.value.props.Keys == OwnProps(theme).Keys + {"mode"}
    ensures r.Ok? ==> r.value.props["mode"] == (if Prop(theme, "mode") == Ok(Some(Str("light"))) then Str("dark") else Str("light"))
    ensures r.Ok? ==> forall k :: k in OwnProps(theme) && k != "mode" ==> r.value.props[k] == OwnProps(theme)[k]
  {
    match Prop(theme, "mode")
    case Err(e) => Err(e)
    case Ok(mode) =>
      Ok(Obj(OwnProps(theme)["mode" := if mode == Some(Str("light")) then Str("dark") else Str("light")]))
  }

  /** Flipping a light or dark theme twice gives it back unchanged. */
  lemma FlipThemeTwice(theme: map<string, Value>)
    requires "mode" in theme && theme["mode"] in {Str("light"), Str("dark")}
    ensures FlipTheme(Some(Obj(theme))).Ok?
    ensures FlipTheme(Some(FlipTheme(Some(Obj(theme))).value)) == Ok(Obj(theme))
  {
    var once := FlipTheme(Some(Obj(theme))).value;
    var twice := FlipTheme(Some(once)).value;
    assert twice.props == theme;
  }

  /** `toggleTheme`: stores the flipped theme through `setPreference`. */
  method ToggleTheme(prefs: UserPreferences) returns (r: Outcome<JsError>)
    requires prefs.Valid()
    modifies prefs
    ensures prefs.Valid()
    ensures var flipped := FlipTheme(Some(old(prefs.preferences)[ThemeKey]));
      && (r.Fail? <==> flipped.Err?)
      && (flipped.Ok? ==> prefs.preferences == old(prefs.preferences)[ThemeKey := flipped.value]
                          && prefs.stored == Json(Obj(prefs.preferences)))
      && (flipped.Err? ==> prefs.preferences == old(prefs.preferences) && prefs.stored == old(prefs.stored))
  {
    var current := prefs.GetPreference(ThemeKey);
    match FlipTheme(current)
    case Err(e) =>
      r := Fail(e);
    case Ok(theme) =>
      prefs.SetPreference(ThemeKey, theme);
      r := Pass;
  }

  /** `getPreference("notifications").programStart`, as a truth value; reading
      it from a missing or `null` notifications setting throws. */
  function ProgramStartAlerts(notifications: Option<Value>): (r: Result<bool, JsError>)
    ensures r.Err? <==> notifications == None || notifications == Some(Null)
    ensures r.Ok? ==> (r.value <==> notifications.value.Obj? && "programStart" in notifications.value.props
                                    && Truthy(Some(notifications.value.props["programStart"])))
  {
    match Prop(notifications, "programStart")
    case Err(e) => Err(e)
    case Ok(v) => Ok(Truthy(v))
  }

  /** With default preferences program-start alerts are on. */
  lemma AlertsOnByDefault()
    ensures ProgramStartAlerts(Some(Defaults()[NotificationsKey])) == Ok(true)
  {
  }

  /** A browser notification: title and body. */
  datatype Alert = Alert(title: string, body: string)

  /** `playChannel`, without the player and the page: the channel becomes the
      current one and is recorded as recently watched. */
  method PlayChannel(mgr: ChannelManager, k: nat)
    requires k < |mgr.channels|
    modifies mgr`currentChannel, mgr`recentlyWatched, mgr`storedRecent
    ensures mgr.currentChannel == Some(k)
    ensures mgr.recentlyWatched == Recorded(old(mgr.recentlyWatched), mgr.channels[k].id)
    ensures mgr.storedRecent == Some(mgr.recentlyWatched)
  {
    mgr.currentChannel := Some(k);
    mgr.AddToRecentlyWatched(mgr.channels[k].id);
  }

  /** One tick of `startProgramNotifications`: when alerts are on and the
      current program of the channel being watched has not been announced,
      announce it and mark it announced. */
  method NotificationTick(prefs: UserPreferences, mgr: ChannelManager, now: int) returns (r: Result<Option<Alert>, JsError>)
    requires prefs.Valid()
    modifies mgr`channels
    ensures var enabled := ProgramStartAlerts(Some(prefs.preferences[NotificationsKey]));
      var due := DueAlert(old(mgr.channels), mgr.currentChannel, now);
      && (r.Err? <==> enabled.Err?)
      && (enabled.Err? ==> r == Err(enabled.error))
      && (r.Ok? && r.value.Some? <==> enabled == Ok(true) && due.Some?)
      && (r.Ok? && r.value.Some? ==>
            r.value.value == Alert("Now Playing on " + old(mgr.channels)[due.value.0].name,
                                   old(mgr.channels)[due.value.0].schedule[due.value.1].program)
            && mgr.channels == MarkNotified(old(mgr.channels), due.value.0, due.value.1))
      && (!(r.Ok? && r.value.Some?) ==> mgr.channels == old(mgr.channels))
  {
    var notifications := prefs.GetPreference(NotificationsKey);
    match ProgramStartAlerts(notifications) {
      case Err(e) =>
        return Err(e);
      case Ok(on) =>
        if !on {
          return Ok(None);
        }
    }
    match DueAlert(mgr.channels, mgr.currentChannel, now) {
      case None =>
        r := Ok(None);
      case Some((k, i)) =>
        var channel := mgr.channels[k];
        r := Ok(Some(Alert("Now Playing on " + channel.name, channel.schedule[i].program)));
        mgr.channels := MarkNotified(mgr.channels, k, i);
    }
  }
}
