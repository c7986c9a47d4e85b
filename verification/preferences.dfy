/** The user's preferences: a record of top-level settings built from defaults,
    merged with what the browser store holds, and written back after every change. */
module Preferences {
  import opened Wrappers
  import opened Json

  /** `CONFIG.DEFAULT_THEME_COLOR` and `CONFIG.DEFAULT_LANGUAGE`. */
  const DefaultThemeColor := "#0057b8"
  const DefaultLanguage := "English"

  const ThemeKey := "theme"
  const LanguageKey := "language"
  const SavedFiltersKey := "savedFilters"
  const AccessibilityKey := "accessibility"
  const NotificationsKey := "notifications"

  /** The hard-coded preferences object. */
  function Defaults(): (d: map<string, Value>)
    ensures d.Keys == {ThemeKey, LanguageKey, SavedFiltersKey, AccessibilityKey, NotificationsKey}
    ensures d[SavedFiltersKey] == Arr([])
  {
    map[
      ThemeKey := Obj(map["mode" := Str("light"), "color" := Str(DefaultThemeColor), "fontSize" := Str("medium")]),
      LanguageKey := Str(DefaultLanguage),
      SavedFiltersKey := Arr([]),
      AccessibilityKey := Obj(map["highContrast" := Bool(false), "subtitles" := Bool(false)]),
      NotificationsKey := Obj(map["programStart" := Bool(true), "favoriteUpdates" := Bool(true)])
    ]
  }

  /** What the browser store holds under "userPreferences": nothing, the empty
      string, text that parses to a value, or text that does not parse. */
  datatype Stored = Absent | Empty | Json(v: Value) | Unparsable

  /** `{ ...prefs, ...saved }`: every top-level key of `saved` replaces the
      entry of `prefs` wholesale; every other key keeps its value. */
  function Merge(prefs: map<string, Value>, saved: Value): (r: map<string, Value>)
    ensures r.Keys == prefs.Keys + OwnProps(Some(saved)).Keys
    ensures forall k :: k in OwnProps(Some(saved)) ==> r[k] == OwnProps(Some(saved))[k]
    ensures forall k :: k in prefs && k !in OwnProps(Some(saved)) ==> r[k] == prefs[k]
  {
    prefs + OwnProps(Some(saved))
  }

  /** Merging the same saved value twice is merging it once. */
  lemma MergeIdempotent(prefs: map<string, Value>, saved: Value)
    ensures Merge(Merge(prefs, saved), saved) == Merge(prefs, saved)
  {
  }

  /** Reloading what was written restores it, as long as it holds every default key. */
  lemma ReloadRestores(prefs: map<string, Value>)
    requires Defaults().Keys <= prefs.Keys
    ensures Merge(Defaults(), Obj(prefs)) == prefs
  {
  }

  /** A saved theme of `{mode: "dark"}` replaces the whole default theme; the
      other settings keep their defaults. */
  lemma DarkThemeReplacesDefaultTheme()
    ensures var r := Merge(Defaults(), Obj(map[ThemeKey := Obj(map["mode" := Str("dark")])]));
      && r[ThemeKey] == Obj(map["mode" := Str("dark")])
      && forall k :: k in Defaults() && k != ThemeKey ==> r[k] == Defaults()[k]
  {
  }

  /** The `id` of a saved filter, `undefined` when it has none. */
  function FilterId(f: Value): Option<Value>
  {
    match f
    case Obj(m) => if "id" in m then Some(m["id"]) else None
    case _ => None
  }

  /** `filters.filter(f => f.id !== id)`: the filters whose id is not `id`, in
      order; reading `id` of a `null` entry throws. */
  function RemoveById(filters: seq<Value>, id: Value): (r: Result<seq<Value>, JsError>)
    ensures r.Err? <==> Null in filters
    ensures r.Err? ==> r.error == TypeError
    ensures r.Ok? ==> |r.value| <= |filters|
  {
    if filters == [] then Ok([])
    else if filters[0] == Null then Err(TypeError)
    else
      match RemoveById(filters[1..], id)
      case Err(e) => Err(e)
      case Ok(rest) =>
        Ok(if FilterId(filters[0]) != Some(id) then [filters[0]] + rest else rest)
  }

  /** Without a `null` entry, a filter is kept exactly when its id is not `id`. */
  lemma {:induction false} RemoveByIdMembers(filters: seq<Value>, id: Value, f: Value)
    requires Null !in filters
    ensures RemoveById(filters, id).Ok?
    ensures f in RemoveById(filters, id).value <==> f in filters && FilterId(f) != Some(id)
  {
    if filters != [] {
      assert Null !in filters[1..];
      RemoveByIdMembers(filters[1..], id, f);
      assert f in filters <==> f == filters[0] || f in filters[1..] by {
        assert filters == [filters[0]] + filters[1..];
      }
    }
  }

  /** Removal works filter by filter, so the kept filters stay in order. */
  lemma {:induction false} RemoveByIdAppend(a: seq<Value>, b: seq<Value>, id: Value)
    requires Null !in a + b
    ensures RemoveById(a + b, id).Ok?
    ensures RemoveById(a + b, id).value == RemoveById(a, id).value + RemoveById(b, id).value
  {
    if a == [] {
      assert a + b == b;
    } else {
      var ab := a + b;
      assert ab[0] == a[0] && a[0] != Null;
      assert ab[1..] == a[1..] + b;
      assert Null !in a[1..];
      RemoveByIdAppend(a[1..], b, id);
      var rest, restA := RemoveById(ab[1..], id).value, RemoveById(a[1..], id).value;
      if FilterId(a[0]) != Some(id) {
        assert RemoveById(ab, id) == Ok([a[0]] + rest);
        assert RemoveById(a, id) == Ok([a[0]] + restA);
      } else {
        assert RemoveById(ab, id) == Ok(rest);
        assert RemoveById(a, id) == Ok(restA);
      }
    }
  }

  class UserPreferences {
    var preferences: map<string, Value>
    /** What the browser store holds under "userPreferences". */
    var stored: Stored

    /** Every default key is present; no operation deletes a key. */
    ghost predicate Valid()
      reads this
    {
      Defaults().Keys <= preferences.Keys
    }

    /** Starts from the defaults, with the store as it is. */
    constructor (saved: Stored)
      ensures Valid()
      ensures preferences == Defaults() && stored == saved
    {
      preferences := Defaults();
      stored := saved;
    }

    /** `loadPreferences`: an absent or empty entry changes nothing; parsed text
        is merged over the current preferences; text that does not parse throws
        a SyntaxError and changes nothing. */
    method LoadPreferences() returns (r: Outcome<JsError>)
      requires Valid()
      modifies this`preferences
      ensures Valid()
      ensures r == (if stored.Unparsable? then Fail(SyntaxError) else Pass)
      ensures preferences == if stored.Json? then Merge(old(preferences), stored.v) else old(preferences)
    {
      match stored
      case Absent => r := Pass;
      case Empty => r := Pass;
      case Unparsable => r := Fail(SyntaxError);
      case Json(v) =>
        preferences := Merge(preferences, v);
        r := Pass;
    }

    /** `savePreferences`. */
    method SavePreferences()
      modifies this`stored
      ensures stored == Json(Obj(preferences))
    {
      stored := Json(Obj(preferences));
    }

    /** `getPreference(key)`: a default key always has a value. */
    function GetPreference(key: string): (r: Option<Value>)
      reads this
      requires Valid()
      ensures key in Defaults() ==> r.Some?
      ensures r.Some? <==> key in preferences
      ensures r.Some? ==> r.value == preferences[key]
    {
      if key in preferences then Some(preferences[key]) else None
    }

    /** `setPreference(key, value)`: changes that key only, then writes through. */
    method SetPreference(key: string, value: Value)
      requires Valid()
      modifies this
      ensures Valid()
      ensures preferences == old(preferences)[key := value]
      ensures forall k :: k in old(preferences) && k != key ==> preferences[k] == old(preferences)[k]
      ensures stored == Json(Obj(preferences))
    {
      preferences := preferences[key := value];
      SavePreferences();
    }

    /** `addSavedFilter(filter)`: appends to `savedFilters`, or throws when that
        setting is not an array. */
    method AddSavedFilter(filter: Value) returns (r: Outcome<JsError>)
      requires Valid()
      modifies this
      ensures Valid()
      ensures r.Pass? <==> old(preferences[SavedFiltersKey]).Arr?
      ensures r.Pass? ==> preferences == old(preferences)[SavedFiltersKey := Arr(old(preferences[SavedFiltersKey]).items + [filter])]
                          && stored == Json(Obj(preferences))
      ensures r.Fail? ==> r.error == TypeError && preferences == old(preferences) && stored == old(stored)
    {
      var filters := preferences[SavedFiltersKey];
      if !filters.Arr? {
        return Fail(TypeError);
      }
      preferences := preferences[SavedFiltersKey := Arr(filters.items + [filter])];
      SavePreferences();
      r := Pass;
    }

    /** `removeSavedFilter(id)`: keeps, in order, the saved filters whose id is
        not `id`; throws when `savedFilters` is not an array or holds `null`. */
    method RemoveSavedFilter(id: Value) returns (r: Outcome<JsError>)
      requires Valid()
      modifies this
      ensures Valid()
      ensures var old_filters := old(preferences[SavedFiltersKey]);
        r.Pass? <==> old_filters.Arr? && Null !in old_filters.items
      ensures r.Pass? ==> preferences == old(preferences)[SavedFiltersKey := Arr(RemoveById(old(preferences[SavedFiltersKey]).items, id).value)]
                          && stored == Json(Obj(preferences))
      ensures r.Fail? ==> r.error == TypeError && preferences == old(preferences) && stored == old(stored)
    {
      var filters := preferences[SavedFiltersKey];
      if !filters.Arr? {
        return Fail(TypeError);
      }
      match RemoveById(filters.items, id)
      case Err(e) =>
        r := Fail(e);
      case Ok(kept) =>
        preferences := preferences[SavedFiltersKey := Arr(kept)];
        SavePreferences();
        r := Pass;
    }
  }
}
