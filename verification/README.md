# Yo-Tv channel directory and user state, in Dafny

This project models the logic core of the Yo-Tv live-TV web page (`script.js`):

- the **channel catalog**: channel records, lookup by id (`getChannelById`), and
  the resolution of the favorites and recently-watched id lists to channels,
  which silently drops ids the catalog no longer holds;
- the **schedule resolver** (`getCurrentProgram`): each `"HH:MM"` slot time is
  turned into minutes since midnight, and the first slot whose half-open
  interval `[start_i, start_i+1)` holds "now" is current; the last slot is open
  ended. "Now" is a parameter (minutes since midnight) instead of the wall clock;
- the **filter engine** (`filterChannels`): an order-preserving filter that ANDs
  a case-insensitive substring search on name or description, membership of a
  language, and equality of the category, each skipped when empty;
- the **favorites and recency tracker** (`ChannelManager`): `toggleFavorite`
  as a set toggle over an ordered list, and `addToRecentlyWatched` as a
  most-recent-first queue bounded by `MAX_RECENT_CHANNELS` (10), both written
  through to the browser store;
- the **preference store** (`UserPreferences`): hard-coded defaults,
  shallow-merged with the stored object on load (top-level keys replaced
  wholesale), a keyed getter and setter, and append / remove-by-id on
  `savedFilters`;
- from the page controller: the light/dark theme flip of `toggleTheme`,
  `playChannel`'s state change, and the one-shot start-of-program alert of the
  once-a-minute notification check.

Modules, one per file: `Wrappers` (Option, Result, Outcome), `Json` (the
JavaScript values the preferences hold, truthiness, property reads, object
spread), `Text` (lower-casing, `includes`, `split`, `Number`, `"HH:MM"`),
`Lists` (`findIndex`, filtering one id out), `Catalog`, `Schedule`, `Channels`
(the `ChannelManager` class and the specification functions of its lists),
`Preferences` (the `UserPreferences` class), and `Ui`.

The classes keep the source's fields and update them in place; each method's
contract ties the new state to a function of the old one (`Toggled`,
`Recorded`, `Merge`, `RemoveById`, `FlipTheme`, `MarkNotified`), and the
properties of those functions are proved as lemmas.

Points about script.js that the model makes explicit:

- `loadPreferences` parses the stored text without a `try` (script.js:162-167),
  so unparsable text throws: `LoadPreferences` returns a SyntaxError and leaves
  the preferences as they were;
- the code checks neither that channel ids are unique nor that a schedule's
  times ascend, so the model works on any catalog and schedule, and the
  exact-window and unique-lookup lemmas take those as hypotheses
  (`Schedule.Ascending`, `Catalog.UniqueIds`);
- `loadPreferences` merges over the current preferences, not over the defaults;
  it runs once in the constructor (script.js:159) and once more at start-up
  (script.js:22), which `Preferences.MergeIdempotent` shows to be harmless;
- nothing in script.js calls `startProgramNotifications` (script.js:693) or
  `updateRecentList` (script.js:538), so on the page as written the
  notification tick (`Ui.NotificationTick`) and the recent-list resolution
  (`Catalog.ResolveIds` over the recently-watched ids) never run; the model
  states what they would do if called.

## Model

| member | source | states |
|---|---|---|
| `Text.ContainsOccurs` | script.js:106-109 | `includes` holds exactly when the needle occurs at some position of the text |
| `Text.Split` | script.js:89 | `split(":")` yields at least one piece and no piece holds the separator |
| `Text.JoinSplit` | script.js:89 | joining the pieces of a split with the separator gives back the original text |
| `Text.ParseTime` | script.js:89-90 | a slot time's minutes since midnight, when defined, are not negative; fewer than two ':'-pieces, or a first or second piece that is not a number, give NaN, and only those |
| `Text.NoColonIsNaN` | script.js:89-90 | a time without ':' has no minutes piece and is NaN |
| `Text.NonNumberIsNaN` | script.js:89-90 | "HH:MM" with an hours or minutes piece that is not all digits is NaN |
| `Text.ParseTimeText` | script.js:89-90 | every two-digit "HH:MM" text with HH < 24 and MM < 60 parses to HH * 60 + MM |
| `Lists.IndexOf` | script.js:61 | `findIndex` gives -1 exactly when the id is absent, else the first position holding it |
| `Lists.Without` | script.js:72-74 | filtering an id out removes every occurrence of it and keeps every other value; an absent id changes nothing |
| `Lists.WithoutAppend` | script.js:72-74 | filtering an id out distributes over concatenation, so the order of the other ids is kept |
| `Lists.WithoutMultiset` | script.js:72-74 | filtering an id out keeps the multiplicity of every other id |
| `Catalog.GetChannelById` | script.js:56-58 | the lookup finds nothing exactly when no channel has the id, and otherwise a catalog channel with that id |
| `Catalog.LookupFindsChannel` | script.js:56-58 | the lookup yields the first channel carrying the id |
| `Catalog.UniqueLookup` | script.js:56-58 | with unique ids, looking up a channel's id yields that channel |
| `Catalog.ResolveIds` | script.js:522-524 | resolving an id list never yields more channels than there are ids (same code at script.js:542-544) |
| `Catalog.ResolveMembers` | script.js:522-524 | every resolved channel is in the catalog and named by some id of the list |
| `Catalog.ResolveAppend` | script.js:522-524 | resolution distributes over concatenation: the channels come in the order of their ids |
| `Catalog.DanglingIdDropped` | script.js:542-544 | an id missing from the catalog is dropped from the resolved list without any other effect |
| `Catalog.ResolveKnownIds` | script.js:522-524 | when every id is known nothing is dropped and position k holds the channel of id k |
| `Catalog.FilterChannels` | script.js:102-119 | the result is never longer than the catalog |
| `Catalog.Matches` | script.js:104-117 | the search, language and category tests ANDed, each passed when its criterion is empty; no criteria let every channel through, and a passing channel has the asked category and language (FilterMembers, FilterWithoutCriteria and FilterComposes build on it) |
| `Catalog.FilterMembers` | script.js:104-117 | a channel is in the result exactly when it is in the catalog and passes the search, language and category tests |
| `Catalog.FilterAppend` | script.js:103 | filtering distributes over concatenation, so the result keeps catalog order |
| `Catalog.FilterWithoutCriteria` | script.js:104-117 | with empty search, language and category the whole catalog comes back unchanged |
| `Catalog.FilterComposes` | script.js:117 | filtering by all three criteria equals filtering by search, then language, then category |
| `Schedule.Covers` | script.js:89-98 | the `find` callback: a covering slot's time parses to a start at or before `now`, and unless it is last the next slot's start parses and is after `now` (CurrentSlotExactly and AtMostOneCovers state its meaning on ascending schedules) |
| `Schedule.FindFrom` | script.js:88-99 | `find` returns the first slot from a position on that passes the interval test, or nothing when none does |
| `Schedule.CurrentSlotIndex` | script.js:84-99 | the slot returned is the first that passes the interval test, as `find` returns; no slot passes it when nothing is returned |
| `Schedule.GetCurrentProgram` | script.js:84-100 | `getCurrentProgram` returns the slot at the resolved position, or `undefined` |
| `Schedule.CurrentSlotExactly` | script.js:88-99 | in a strictly ascending schedule slot i is current exactly when start_i <= now and (i is last or now < start_i+1) |
| `Schedule.AtMostOneCovers` | script.js:91-98 | in a strictly ascending schedule no two slots pass the interval test for the same minute |
| `Schedule.LastSlotOpenEnded` | script.js:93 | in a strictly ascending schedule, the last slot is current at every minute from its start on |
| `Schedule.NothingBeforeFirstSlot` | script.js:88-99 | in a strictly ascending schedule nothing is current exactly when the schedule is empty or now precedes its first slot |
| `Schedule.ResolutionIgnoresNotified` | script.js:714 | marking a slot as notified never changes which slot is current |
| `Schedule.ExampleDayResolution` | script.js:84-99 | for slots at 08:00, 12:00, 18:00: 07:59 gives none, 08:00 and 11:59 the first, 12:00 the second, 23:59 the third |
| `Channels.Toggled` | script.js:61-66 | the favorites after `toggleFavorite`: an absent id is appended at the end (one entry longer), a present id costs one entry (ToggleFavoriteChange, ToggleFlipsMembership, ToggleTwice and ToggleTwiceRestores state the rest) |
| `Channels.ToggleFavoriteChange` | script.js:60-66 | an absent id is appended; a present id loses exactly one occurrence; the other ids keep their order and multiplicity |
| `Channels.ToggleFlipsMembership` | script.js:60-68 | on a duplicate-free list the toggle's result is the new membership, the opposite of the old, and no duplicate appears |
| `Channels.ToggleTwice` | script.js:60-69 | on a duplicate-free list, toggling twice restores membership and all other ids, and restores the list when the id was absent |
| `Channels.ToggleTwiceRestores` | script.js:60-66 | on a duplicate-free list, toggling twice gives the list back exactly when the id was absent or was its last entry; any other present id ends up moved to the end |
| `Channels.Recorded` | script.js:72-79 | the recently-watched list after `addToRecentlyWatched`: the id first, at most one entry longer than before (RecordedShape, RecordedBounded, RecordedNoDup and RecordedAgain state the rest) |
| `Channels.RecordedShape` | script.js:71-79 | after recording, the id is first and occurs once, and the rest is the old list without the id, in order, less at most its last entry |
| `Channels.RecordedBounded` | script.js:77-79 | from at most 10 entries the list stays within 10, and only the old last entry is dropped, when a new id meets a full list |
| `Channels.RecordedNoDup` | script.js:71-79 | recording keeps a duplicate-free list duplicate-free |
| `Channels.RecordedAgain` | script.js:71-79 | on a duplicate-free list of at most 10 ids, re-recording a listed id moves it to the front without changing the length or the set of ids |
| `Channels.RecordDistinct` | script.js:71-79 | watching distinct channels from an empty list leaves the newest ten, newest first |
| `Channels.ElevenDistinct` | script.js:71-79 | starting from an empty list, after eleven distinct channels ten remain, the eleventh first and the first gone |
| `Channels.DueAlert` | script.js:702-709 | an alert is due exactly when a channel is being watched and its current slot is not yet notified, and then for that channel and that slot |
| `Channels.MarkNotified` | script.js:714 | `currentProgram.notified = true`: that slot is marked, and every other slot, every other channel and every other field of the slot and of the channel stay as they were |
| `Channels.AlertIsOneShot` | script.js:709-714 | once its slot is marked notified, a program is not announced again while it stays current |
| `Channels.ChannelManager.constructor` | script.js:36-41 | no catalog, no current channel, and both lists read from the store, an absent or unreadable entry giving [] |
| `Channels.ChannelManager.LoadChannelData` | script.js:44-54 | a loaded feed replaces the catalog; a failure is passed on and leaves the catalog as it was |
| `Channels.ChannelManager.ToggleFavorite` | script.js:60-69 | favorites become the toggled list and are written through; the result is the new membership, the opposite of the old on a duplicate-free list |
| `Channels.ChannelManager.AddToRecentlyWatched` | script.js:71-82 | the list becomes the recorded list and is written through; the id is first and unique; a list within 10 stays within 10 |
| `Preferences.Defaults` | script.js:142-158 | the defaults hold exactly theme, language, savedFilters, accessibility and notifications, with no saved filter |
| `Preferences.Merge` | script.js:165 | every top-level key of the stored object replaces the current value wholesale; every other key keeps its value |
| `Preferences.MergeIdempotent` | script.js:165 | merging the same stored object twice equals merging it once |
| `Preferences.ReloadRestores` | script.js:162-171 | reloading what was saved over the defaults restores it exactly |
| `Preferences.DarkThemeReplacesDefaultTheme` | script.js:165 | a stored theme of {mode: "dark"} replaces the whole default theme and every other setting keeps its default |
| `Preferences.RemoveById` | script.js:188-190 | throws a TypeError exactly when an entry is null, and otherwise keeps no more filters than it was given |
| `Preferences.RemoveByIdMembers` | script.js:188-190 | without a null entry, a filter is kept exactly when its id is not the given one |
| `Preferences.RemoveByIdAppend` | script.js:188-190 | removal distributes over concatenation, so the kept filters stay in order |
| `Preferences.UserPreferences.constructor` | script.js:141-158 | the preferences start as the defaults |
| `Preferences.UserPreferences.LoadPreferences` | script.js:162-167 | absent or empty stored text changes nothing, a parsed value is merged over the current preferences, unparsable text throws and changes nothing |
| `Preferences.UserPreferences.SavePreferences` | script.js:169-171 | the store then holds the current preferences |
| `Preferences.UserPreferences.GetPreference` | script.js:173-175 | a key has a value exactly when it is set, and every default key is always set |
| `Preferences.UserPreferences.SetPreference` | script.js:177-180 | only the given key changes, and the result is written through |
| `Preferences.UserPreferences.AddSavedFilter` | script.js:182-185 | appends the filter and writes through when savedFilters is an array; otherwise throws a TypeError and changes nothing |
| `Preferences.UserPreferences.RemoveSavedFilter` | script.js:187-192 | savedFilters becomes the filters without the id, in order, and is written through; a non-array or a null entry throws and changes nothing |
| `Ui.FlipTheme` | script.js:579-582 | the new theme keeps every other field, sets mode to dark when it was light and to light otherwise; a missing or null theme throws |
| `Ui.FlipThemeTwice` | script.js:577-582 | flipping a light or dark theme twice gives it back unchanged |
| `Ui.ToggleTheme` | script.js:577-585 | stores the flipped theme through the setter, or changes nothing when the flip throws |
| `Ui.ProgramStartAlerts` | script.js:695-700 | alerts are on exactly when the notifications setting is an object with a truthy programStart; a missing or null setting throws, any other value reads as off |
| `Ui.AlertsOnByDefault` | script.js:154-157 | with the default preferences program-start alerts are on |
| `Ui.PlayChannel` | script.js:421-423 | the channel becomes current and is recorded as recently watched |
| `Ui.NotificationTick` | script.js:693-716 | fails exactly when reading the notifications setting throws; announces "Now Playing on <name>" with the program exactly when alerts are on and the current slot is not yet notified, and then marks that slot notified; otherwise changes nothing |

## Left out

- Fetching and parsing `channels.json` (script.js:44-54) is I/O: `LoadChannelData` takes its outcome as a parameter.
- `Channels.ChannelManager.LoadChannelData` takes the feed already as a channel list: `response.json()` (script.js:48) fails only on text that is not JSON, and a JSON body of another shape is stored in `this.channels` as it is, which the typed catalog cannot hold.
- The browser store and JSON text: each stored entry is modelled by its decoded value (`storedFavorites`, `storedRecent`, `UserPreferences.stored`). Serialisation is not modelled.
- A failed write is not modelled: `saveToStorage` (script.js:121-127) swallows it and `savePreferences` (script.js:169-171) would throw after memory was updated. The model assumes every write succeeds.
- Channels.ChannelManager.constructor: a stored list that parses to a truthy value other than an array is kept by the source; the model only knows a stored array or nothing.
- Text.ToLower: maps only the ASCII letters, whereas `toLowerCase` folds all of Unicode.
- Text.ToNumber: `Number` on text with blanks, a sign, a decimal point, an exponent or a hex prefix is treated as NaN, whereas JavaScript gives a number for some of these.
- Json.Value: numbers are integers; floating point is not modelled.
- Json.OwnProps: spreading a string or an array copies its indices in JavaScript; the model copies nothing.
- Json.Prop: built-in properties such as `length` read as `undefined`.
- Preferences.UserPreferences.GetPreference: `this.preferences[key]` (script.js:174) also finds properties inherited from `Object.prototype`, so `getPreference("toString")` returns a function in JavaScript; the model gives nothing for a key that is not set. No caller passes such a key.
- Channel ids are modelled as strings (`Catalog.ChannelId`); a feed whose ids are numbers, where `===` (script.js:57, :61, :73) keeps `1` and `"1"` apart, is not represented.
- Preferences.RemoveById: ids are compared by value; JavaScript's `!==` compares objects and arrays by reference.
- Preferences.UserPreferences.constructor: does not perform the load at script.js:159, because a Dafny constructor cannot report the SyntaxError the source throws there; callers invoke `LoadPreferences` next.
- Channels.ChannelManager: the watched channel is kept as a position in `channels`, where the source keeps a reference. The two agree because the catalog is loaded once before anything plays. After a second load the model would see the channel at the same position.
- The player (`PlayerManager`, script.js:196-274), page rendering, event wiring, debouncing, the preferences panel, the `setInterval` timer and the browser `Notification` API are left out. They are DOM, timers and foreign calls. `Ui.NotificationTick` returns the alert the page would show and leaves the permission check out.
- The wall clock at script.js:85-86 is replaced by a minute-of-day parameter.
