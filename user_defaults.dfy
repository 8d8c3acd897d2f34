/**
 * Persisted preferences (`UserDefaultsService`) over the key-value store `UserDefaults.standard`,
 * and the colour theme (`AppTheme`).
 *
 * The key-value store holds booleans, integers and strings. Its typed readers follow
 * `UserDefaults`: a missing key reads as `false`, `0` or no string.
 */
module Preferences {
  import opened Wrappers
  import opened Dates

  // ---------------------------------------------------------------------------------------------
  // Theme

  datatype AppTheme = System | Light | Dark

  /** `AppTheme.allCases`, in declaration order. */
  const AllThemes: seq<AppTheme> := [System, Light, Dark]

  function ThemeRawValue(t: AppTheme): string {
    match t
    case System => "system"
    case Light => "light"
    case Dark => "dark"
  }

  /** `AppTheme(rawValue:)`. */
  function ThemeFromRawValue(s: string): (r: Option<AppTheme>)
    ensures r.Some? ==> ThemeRawValue(r.value) == s
  {
    if s == "system" then Some(System)
    else if s == "light" then Some(Light)
    else if s == "dark" then Some(Dark)
    else None
  }

  function ThemeLabel(t: AppTheme): string {
    match t
    case System => "Système"
    case Light => "Clair"
    case Dark => "Sombre"
  }

  datatype ColorScheme = LightScheme | DarkScheme

  /** `colorScheme`: the scheme the theme forces, none to follow the system. */
  function ThemeColorScheme(t: AppTheme): Option<ColorScheme> {
    match t
    case System => None
    case Light => Some(LightScheme)
    case Dark => Some(DarkScheme)
  }

  /** Every theme's raw value decodes back to it; a string that is no theme's raw value decodes to none. */
  lemma ThemeRawValueRoundTrip(t: AppTheme, s: string)
    ensures ThemeFromRawValue(ThemeRawValue(t)) == Some(t)
    ensures (forall t': AppTheme :: ThemeRawValue(t') != s) ==> ThemeFromRawValue(s) == None
  {
  }

  /** The theme leaves the colour scheme to the system exactly when it is `.system`; the others force distinct schemes. */
  lemma ColorSchemeNoneIffSystem(t: AppTheme, u: AppTheme)
    ensures ThemeColorScheme(t).None? <==> t == System
    ensures t != u ==> ThemeColorScheme(t) != ThemeColorScheme(u)
  {
  }

  /** Distinct themes have distinct raw values and labels, and all three are listed. */
  lemma ThemeMappingsInjective(t: AppTheme, u: AppTheme)
    ensures t != u ==> ThemeRawValue(t) != ThemeRawValue(u) && ThemeLabel(t) != ThemeLabel(u)
    ensures t in AllThemes && |AllThemes| == 3
  {
  }

  // ---------------------------------------------------------------------------------------------
  // The key-value store

  datatype Value = BoolValue(b: bool) | IntValue(i: int) | StringValue(s: string)

  /** `bool(forKey:)`: a stored boolean, an integer read as nonzero, `false` otherwise. */
  function BoolFor(m: map<string, Value>, key: string): bool {
    if key !in m then false
    else match m[key]
      case BoolValue(b) => b
      case IntValue(i) => i != 0
      case StringValue(_) => false
  }

  /** `integer(forKey:)`: a stored integer, a boolean read as 1 or 0, `0` otherwise. */
  function IntegerFor(m: map<string, Value>, key: string): int {
    if key !in m then 0
    else match m[key]
      case BoolValue(b) => if b then 1 else 0
      case IntValue(i) => i
      case StringValue(_) => 0
  }

  /** `string(forKey:)`: a stored string, or none. */
  function StringFor(m: map<string, Value>, key: string): Option<string> {
    if key in m && m[key].StringValue? then Some(m[key].s) else None
  }

  const IsNotificationEnabledKey: string := "isNotificationEnabled"
  const NotificationHourKey: string := "notificationHour"
  const NotificationMinuteKey: string := "notificationMinute"
  const SelectedThemeKey: string := "selectedTheme"
  /** Set when the hour has been chosen, so that a chosen midnight is not mistaken for "never set". */
  const NotificationHourSetKey: string := "notificationHourSet"

  /** The hour used when none has been chosen. */
  const DefaultHour: int := 20

  /** What `init` reads for `isNotificationEnabled`. */
  function LoadedEnabled(m: map<string, Value>): bool {
    BoolFor(m, IsNotificationEnabledKey)
  }

  /** What `init` reads for `notificationHour`: a stored 0 without the flag means the default. */
  function LoadedHour(m: map<string, Value>): int {
    var hour := IntegerFor(m, NotificationHourKey);
    if hour == 0 && !BoolFor(m, NotificationHourSetKey) then DefaultHour else hour
  }

  /** What `init` reads for `notificationMinute`. */
  function LoadedMinute(m: map<string, Value>): int {
    IntegerFor(m, NotificationMinuteKey)
  }

  /** What `init` reads for `selectedTheme`: a missing or unrecognised raw value means `.system`. */
  function LoadedTheme(m: map<string, Value>): AppTheme {
    match StringFor(m, SelectedThemeKey)
    case None => System
    case Some(raw) => ThemeFromRawValue(raw).GetOr(System)
  }

  /** Missing keys read as disabled, the default hour, minute 0 and the system theme. */
  lemma LoadedFromEmpty()
    ensures !LoadedEnabled(map[]) && LoadedHour(map[]) == DefaultHour
    ensures LoadedMinute(map[]) == 0 && LoadedTheme(map[]) == System
  {
  }

  /** The hour is the default exactly when the stored hour is 0 and the flag is not set; otherwise it is the stored hour. */
  lemma LoadedHourSpec(m: map<string, Value>)
    ensures LoadedHour(m) != IntegerFor(m, NotificationHourKey) ==>
              IntegerFor(m, NotificationHourKey) == 0 && !BoolFor(m, NotificationHourSetKey) && LoadedHour(m) == DefaultHour
    ensures BoolFor(m, NotificationHourSetKey) ==> LoadedHour(m) == IntegerFor(m, NotificationHourKey)
  {
  }

  /** A stored string that names no theme reads as `.system`. */
  lemma UnrecognisedThemeIsSystem(m: map<string, Value>, s: string)
    requires SelectedThemeKey in m && m[SelectedThemeKey] == StringValue(s)
    requires forall t: AppTheme :: ThemeRawValue(t) != s
    ensures LoadedTheme(m) == System
  {
    ThemeRawValueRoundTrip(System, s);
  }

  /** Writing what the enabled setter writes and reading it back gives the value written; the other preferences read as before. */
  lemma EnabledRoundTrip(m: map<string, Value>, b: bool)
    ensures LoadedEnabled(m[IsNotificationEnabledKey := BoolValue(b)]) == b
    ensures LoadedHour(m[IsNotificationEnabledKey := BoolValue(b)]) == LoadedHour(m)
    ensures LoadedMinute(m[IsNotificationEnabledKey := BoolValue(b)]) == LoadedMinute(m)
    ensures LoadedTheme(m[IsNotificationEnabledKey := BoolValue(b)]) == LoadedTheme(m)
  {
    var m' := m[IsNotificationEnabledKey := BoolValue(b)];
    assert StringFor(m', SelectedThemeKey) == StringFor(m, SelectedThemeKey);
  }

  /** Writing what the hour setter writes (the hour and the flag) reads back that hour, 0 included; the others read as before. */
  lemma HourRoundTrip(m: map<string, Value>, h: int)
    ensures LoadedHour(m[NotificationHourKey := IntValue(h)][NotificationHourSetKey := BoolValue(true)]) == h
    ensures LoadedEnabled(m[NotificationHourKey := IntValue(h)][NotificationHourSetKey := BoolValue(true)]) == LoadedEnabled(m)
    ensures LoadedMinute(m[NotificationHourKey := IntValue(h)][NotificationHourSetKey := BoolValue(true)]) == LoadedMinute(m)
    ensures LoadedTheme(m[NotificationHourKey := IntValue(h)][NotificationHourSetKey := BoolValue(true)]) == LoadedTheme(m)
  {
    var m' := m[NotificationHourKey := IntValue(h)][NotificationHourSetKey := BoolValue(true)];
    assert StringFor(m', SelectedThemeKey) == StringFor(m, SelectedThemeKey);
  }

  /** Only with the flag does a chosen midnight survive: the hour alone, 0, reads as the default when the flag was never set. */
  lemma MidnightNeedsFlag(m: map<string, Value>)
    requires !BoolFor(m, NotificationHourSetKey)
    ensures LoadedHour(m[NotificationHourKey := IntValue(0)]) == DefaultHour
    ensures LoadedHour(m[NotificationHourKey := IntValue(0)][NotificationHourSetKey := BoolValue(true)]) == 0
  {
    HourRoundTrip(m, 0);
  }

  /** Writing what the minute setter writes reads back that minute; the others read as before. */
  lemma MinuteRoundTrip(m: map<string, Value>, mi: int)
    ensures LoadedMinute(m[NotificationMinuteKey := IntValue(mi)]) == mi
    ensures LoadedEnabled(m[NotificationMinuteKey := IntValue(mi)]) == LoadedEnabled(m)
    ensures LoadedHour(m[NotificationMinuteKey := IntValue(mi)]) == LoadedHour(m)
    ensures LoadedTheme(m[NotificationMinuteKey := IntValue(mi)]) == LoadedTheme(m)
  {
    var m' := m[NotificationMinuteKey := IntValue(mi)];
    assert StringFor(m', SelectedThemeKey) == StringFor(m, SelectedThemeKey);
  }

  /** Writing what the theme setter writes reads back that theme; the others read as before. */
  lemma ThemeRoundTrip(m: map<string, Value>, t: AppTheme)
    ensures LoadedTheme(m[SelectedThemeKey := StringValue(ThemeRawValue(t))]) == t
    ensures LoadedEnabled(m[SelectedThemeKey := StringValue(ThemeRawValue(t))]) == LoadedEnabled(m)
    ensures LoadedHour(m[SelectedThemeKey := StringValue(ThemeRawValue(t))]) == LoadedHour(m)
    ensures LoadedMinute(m[SelectedThemeKey := StringValue(ThemeRawValue(t))]) == LoadedMinute(m)
  {
    ThemeRawValueRoundTrip(t, ThemeRawValue(t));
  }

  /** `UserDefaults.standard`: one store that every service instance reads and writes. */
  class KeyValueStore {
    var values: map<string, Value>

    constructor (initial: map<string, Value>)
      ensures values == initial
    {
      values := initial;
    }

    /** `set(_:forKey:)`. */
    method Set(key: string, v: Value)
      modifies this
      ensures values == old(values)[key := v]
    {
      values := values[key := v];
    }
  }

  class UserDefaultsService {
    /** `defaults`. */
    const defaults: KeyValueStore
    var isNotificationEnabled: bool
    var notificationHour: int
    var notificationMinute: int
    var selectedTheme: AppTheme

    /** Every preference holds what a fresh `init` would read from the store: the setters persist what they set. */
    ghost predicate Valid()
      reads this, defaults
    {
      && isNotificationEnabled == LoadedEnabled(defaults.values)
      && notificationHour == LoadedHour(defaults.values)
      && notificationMinute == LoadedMinute(defaults.values)
      && selectedTheme == LoadedTheme(defaults.values)
    }

    /** `init`: read every preference from the store. */
    constructor (store: KeyValueStore)
      ensures defaults == store && Valid()
      ensures isNotificationEnabled == LoadedEnabled(store.values)
      ensures notificationHour == LoadedHour(store.values)
      ensures notificationMinute == LoadedMinute(store.values)
      ensures selectedTheme == LoadedTheme(store.values)
    {
      defaults := store;
      isNotificationEnabled := BoolFor(store.values, IsNotificationEnabledKey);
      var hour := IntegerFor(store.values, NotificationHourKey);
      notificationHour := if hour == 0 && !BoolFor(store.values, NotificationHourSetKey) then DefaultHour else hour;
      notificationMinute := IntegerFor(store.values, NotificationMinuteKey);
      var raw := StringFor(store.values, SelectedThemeKey);
      if raw.Some? && ThemeFromRawValue(raw.value).Some? {
        selectedTheme := ThemeFromRawValue(raw.value).value;
      } else {
        selectedTheme := System;
      }
    }

    /** The `isNotificationEnabled` setter and its `didSet`. */
    method SetNotificationEnabled(b: bool)
      requires Valid()
      modifies this, defaults
      ensures Valid()
      ensures isNotificationEnabled == b
      ensures notificationHour == old(notificationHour) && notificationMinute == old(notificationMinute)
      ensures selectedTheme == old(selectedTheme)
      ensures defaults.values == old(defaults.values)[IsNotificationEnabledKey := BoolValue(b)]
    {
      EnabledRoundTrip(defaults.values, b);
      isNotificationEnabled := b;
      defaults.Set(IsNotificationEnabledKey, BoolValue(b));
    }

    /** The `notificationHour` setter and its `didSet`, which also records that an hour was chosen. */
    method SetNotificationHour(h: int)
      requires Valid()
      modifies this, defaults
      ensures Valid()
      ensures notificationHour == h
      ensures isNotificationEnabled == old(isNotificationEnabled) && notificationMinute == old(notificationMinute)
      ensures selectedTheme == old(selectedTheme)
      ensures defaults.values == old(defaults.values)[NotificationHourKey := IntValue(h)][NotificationHourSetKey := BoolValue(true)]
    {
      HourRoundTrip(defaults.values, h);
      notificationHour := h;
      defaults.Set(NotificationHourKey, IntValue(h));
      defaults.Set(NotificationHourSetKey, BoolValue(true));
    }

    /** The `notificationMinute` setter and its `didSet`. */
    method SetNotificationMinute(mi: int)
      requires Valid()
      modifies this, defaults
      ensures Valid()
      ensures notificationMinute == mi
      ensures isNotificationEnabled == old(isNotificationEnabled) && notificationHour == old(notificationHour)
      ensures selectedTheme == old(selectedTheme)
      ensures defaults.values == old(defaults.values)[NotificationMinuteKey := IntValue(mi)]
    {
      MinuteRoundTrip(defaults.values, mi);
      notificationMinute := mi;
      defaults.Set(NotificationMinuteKey, IntValue(mi));
    }

    /** The `selectedTheme` setter and its `didSet`. */
    method SetSelectedTheme(t: AppTheme)
      requires Valid()
      modifies this, defaults
      ensures Valid()
      ensures selectedTheme == t
      ensures isNotificationEnabled == old(isNotificationEnabled) && notificationHour == old(notificationHour)
      ensures notificationMinute == old(notificationMinute)
      ensures defaults.values == old(defaults.values)[SelectedThemeKey := StringValue(ThemeRawValue(t))]
    {
      ThemeRoundTrip(defaults.values, t);
      selectedTheme := t;
      defaults.Set(SelectedThemeKey, StringValue(ThemeRawValue(t)));
    }

    /** The `notificationTime` getter: today's reference date at the stored hour and minute. */
    function NotificationTime(): (t: Timestamp)
      reads this
      ensures 0 <= notificationHour < 24 && 0 <= notificationMinute < 60 ==>
                Hour(t) == notificationHour && Minute(t) == notificationMinute
    {
      var t := DateFromTimeOfDay(notificationHour, notificationMinute);
      assert 0 <= notificationHour < 24 && 0 <= notificationMinute < 60 ==>
               Hour(t) == notificationHour && Minute(t) == notificationMinute by {
        if 0 <= notificationHour < 24 && 0 <= notificationMinute < 60 {
          TimeOfDayRoundTrip(notificationHour, notificationMinute);
        }
      }
      t
    }

    /** The `notificationTime` setter on the calendar components it reads; a missing hour means 20, a missing minute 0. */
    method SetNotificationTimeComponents(hour: Option<int>, minute: Option<int>)
      requires Valid()
      modifies this, defaults
      ensures Valid()
      ensures notificationHour == hour.GetOr(DefaultHour) && notificationMinute == minute.GetOr(0)
      ensures isNotificationEnabled == old(isNotificationEnabled) && selectedTheme == old(selectedTheme)
      ensures defaults.values ==
                old(defaults.values)[NotificationHourKey := IntValue(hour.GetOr(DefaultHour))]
                                    [NotificationHourSetKey := BoolValue(true)]
                                    [NotificationMinuteKey := IntValue(minute.GetOr(0))]
    {
      SetNotificationHour(hour.GetOr(DefaultHour));
      SetNotificationMinute(minute.GetOr(0));
    }

    /** The `notificationTime` setter: keep the hour and minute of `t`, and reading the time back gives them. */
    method SetNotificationTime(t: Timestamp)
      requires Valid()
      modifies this, defaults
      ensures Valid()
      ensures notificationHour == Hour(t) && notificationMinute == Minute(t)
      ensures Hour(NotificationTime()) == Hour(t) && Minute(NotificationTime()) == Minute(t)
      ensures isNotificationEnabled == old(isNotificationEnabled) && selectedTheme == old(selectedTheme)
      ensures defaults.values ==
                old(defaults.values)[NotificationHourKey := IntValue(Hour(t))]
                                    [NotificationHourSetKey := BoolValue(true)]
                                    [NotificationMinuteKey := IntValue(Minute(t))]
    {
      SetNotificationTimeComponents(Some(Hour(t)), Some(Minute(t)));
    }
  }
}
