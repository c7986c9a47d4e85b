/** The channel manager: the catalog it holds, the channel being watched, and
    the two id lists it keeps for the user, favorites and recently watched,
    each written through to the browser store after every change. */
module Channels {
  import opened Wrappers
  import opened Lists
  import opened Catalog
  import opened Schedule

  /** `CONFIG.MAX_RECENT_CHANNELS`. */
  const MaxRecentChannels: nat := 10

  /** The favorites list after `toggleFavorite(id)`: the first occurrence of
      `id` removed if there is one, `id` appended otherwise. */
  function Toggled(favorites: seq<ChannelId>, id: ChannelId): (r: seq<ChannelId>)
    ensures id !in favorites ==> |r| == |favorites| + 1 && r[|favorites|] == id
    ensures id in favorites ==> |r| == |favorites| - 1
  {
    var i := IndexOf(favorites, id);
    if i == -1 then favorites + [id] else favorites[..i] + favorites[i + 1..]
  }

  /** The recently-watched list after `addToRecentlyWatched(id)`: every
      occurrence of `id` removed, `id` put in front, and one entry popped from
      the tail when the list has grown past the maximum. */
  function Recorded(recent: seq<ChannelId>, id: ChannelId): (r: seq<ChannelId>)
    ensures |r| >= 1 && r[0] == id
    ensures |r| <= |recent| + 1
  {
    var moved := [id] + Without(recent, id);
    if |moved| > MaxRecentChannels then moved[..|moved| - 1] else moved
  }

  /** Toggling appends an absent id, removes exactly one occurrence of a present
      one, and leaves the other ids in their order. */
  lemma {:induction false} ToggleFavoriteChange(favorites: seq<ChannelId>, id: ChannelId)
    ensures id !in favorites ==> Toggled(favorites, id) == favorites + [id]
    ensures id in favorites ==> multiset(Toggled(favorites, id)) == multiset(favorites) - multiset{id}
    ensures Without(Toggled(favorites, id), id) == Without(favorites, id)
  {
    var i := IndexOf(favorites, id);
    if i == -1 {
      WithoutAppend(favorites, [id], id);
    } else {
      var t := favorites[..i] + favorites[i + 1..];
      assert favorites == favorites[..i] + [id] + favorites[i + 1..];
      assert multiset(favorites) == multiset(t) + multiset{id};
      WithoutRemoveAt(favorites, i, id);
    }
  }

  lemma {:induction false} RemoveAtNoDup(s: seq<ChannelId>, i: nat)
    requires NoDup(s) && i < |s|
    ensures NoDup(s[..i] + s[i + 1..])
    ensures s[i] !in s[..i] + s[i + 1..]
  {
    var t := s[..i] + s[i + 1..];
    forall a, b | 0 <= a < b < |t| ensures t[a] != t[b] {
      var a', b' := if a < i then a else a + 1, if b < i then b else b + 1;
      assert t[a] == s[a'] && t[b] == s[b'];
    }
    forall a | 0 <= a < |t| ensures t[a] != s[i] {
      assert t[a] == s[if a < i then a else a + 1];
    }
  }

  /** On a duplicate-free list the result of `toggleFavorite` is the new
      membership, the opposite of the old, and no duplicate appears. */
  lemma {:induction false} ToggleFlipsMembership(favorites: seq<ChannelId>, id: ChannelId)
    requires NoDup(favorites)
    ensures NoDup(Toggled(favorites, id))
    ensures id in Toggled(favorites, id) <==> id !in favorites
  {
    var i := IndexOf(favorites, id);
    if i != -1 {
      RemoveAtNoDup(favorites, i);
    }
  }

  /** Toggling twice restores membership and the other ids; an id that was
      absent leaves the list exactly as it was. */
  lemma {:induction false} ToggleTwice(favorites: seq<ChannelId>, id: ChannelId)
    requires NoDup(favorites)
    ensures NoDup(Toggled(Toggled(favorites, id), id))
    ensures id in Toggled(Toggled(favorites, id), id) <==> id in favorites
    ensures Without(Toggled(Toggled(favorites, id), id), id) == Without(favorites, id)
    ensures id !in favorites ==> Toggled(Toggled(favorites, id), id) == favorites
  {
    var once := Toggled(favorites, id);
    ToggleFlipsMembership(favorites, id);
    ToggleFlipsMembership(once, id);
    ToggleFavoriteChange(favorites, id);
    ToggleFavoriteChange(once, id);
    if id !in favorites {
      assert IndexOf(once, id) == |favorites|;
      assert once[..|favorites|] == favorites;
    }
  }

  /** On a duplicate-free list, toggling twice gives the list back exactly when
      the id was absent or was the last entry: removing any other entry and
      appending it again moves it to the end. */
  lemma {:induction false} ToggleTwiceRestores(favorites: seq<ChannelId>, id: ChannelId)
    requires NoDup(favorites)
    ensures Toggled(Toggled(favorites, id), id) == favorites
            <==> id !in favorites || favorites[|favorites| - 1] == id
  {
    var once := Toggled(favorites, id);
    ToggleTwice(favorites, id);
    if id in favorites {
      var i := IndexOf(favorites, id);
      RemoveAtNoDup(favorites, i);
      assert once == favorites[..i] + favorites[i + 1..];
      var twice := Toggled(once, id);
      assert twice == once + [id];
      if i == |favorites| - 1 {
        assert once == favorites[..|favorites| - 1];
        assert favorites == favorites[..|favorites| - 1] + [favorites[|favorites| - 1]];
      } else {
        assert twice[i] == favorites[i + 1];
        assert favorites[i + 1] != favorites[i];
        assert favorites[|favorites| - 1] != id;
      }
    }
  }

  /** After recording, `id` is first and occurs once, and the rest is the old
      list without `id`, in order, missing at most its last entry. */
  lemma {:induction false} RecordedShape(recent: seq<ChannelId>, id: ChannelId)
    ensures var r := Recorded(recent, id);
      && |r| >= 1 && r[0] == id && id !in r[1..]
      && multiset(r)[id] == 1
      && r[1..] <= Without(recent, id)
      && |Without(recent, id)| - 1 <= |r[1..]|
  {
    var w := Without(recent, id);
    var r := Recorded(recent, id);
    var moved := [id] + w;
    assert moved[1..] == w;
    if |moved| > MaxRecentChannels {
      assert r[1..] == w[..|w| - 1];
      assert r == [id] + r[1..];
    }
    assert r == [id] + r[1..];
    assert id !in r[1..];
  }

  /** Starting from at most ten entries the list stays within ten, and the only
      entry ever dropped is the old last one, when a new id arrives at a full list. */
  lemma {:induction false} RecordedBounded(recent: seq<ChannelId>, id: ChannelId)
    requires |recent| <= MaxRecentChannels
    ensures |Recorded(recent, id)| <= MaxRecentChannels
    ensures id !in recent && |recent| == MaxRecentChannels ==>
              Recorded(recent, id) == [id] + recent[..|recent| - 1]
    ensures id in recent || |recent| < MaxRecentChannels ==>
              Recorded(recent, id) == [id] + Without(recent, id)
  {
    var w := Without(recent, id);
    if id in recent {
      WithoutMultiset(recent, id);
      assert |multiset(w)| < |multiset(recent)|;
    }
  }

  lemma {:induction false} RecordedNoDup(recent: seq<ChannelId>, id: ChannelId)
    requires NoDup(recent)
    ensures NoDup(Recorded(recent, id))
  {
    var w := Without(recent, id);
    WithoutNoDup(recent, id);
    var moved := [id] + w;
    assert NoDup(moved);
    var r := Recorded(recent, id);
    assert forall a, b :: 0 <= a < b < |r| ==> r[a] == moved[a] && r[b] == moved[b];
  }

  /** Re-recording an id already in a duplicate-free list moves it to the front
      without changing the length or the set of ids. */
  lemma {:induction false} RecordedAgain(recent: seq<ChannelId>, id: ChannelId)
    requires NoDup(recent) && id in recent && |recent| <= MaxRecentChannels
    ensures |Recorded(recent, id)| == |recent|
    ensures Recorded(recent, id)[0] == id
    ensures forall y :: y in Recorded(recent, id) <==> y in recent
  {
    RecordedBounded(recent, id);
    WithoutMultiset(recent, id);
    NoDupCount(recent, id);
    var w := Without(recent, id);
    assert multiset(recent) == multiset(w) + multiset{id};
    assert |multiset(recent)| == |multiset(w)| + 1;
  }

  /** The recently-watched list after watching `ids` in order. */
  function RecordAll(recent: seq<ChannelId>, ids: seq<ChannelId>): seq<ChannelId>
  {
    if ids == [] then recent else Recorded(RecordAll(recent, ids[..|ids| - 1]), ids[|ids| - 1])
  }

  /** Watching distinct channels from an empty list leaves the most recent ten,
      newest first. */
  lemma {:induction false} RecordDistinct(ids: seq<ChannelId>)
    requires NoDup(ids)
    ensures RecordAll([], ids) == Reverse(ids)[..Min(|ids|, MaxRecentChannels)]
  {
    if ids != [] {
      var init, x := ids[..|ids| - 1], ids[|ids| - 1];
      assert NoDup(init);
      RecordDistinct(init);
      var prev := RecordAll([], init);
      assert Reverse(ids) == [x] + Reverse(init);
      assert x !in init;
      assert x !in prev;
      assert Without(prev, x) == prev;
    }
  }

  /** Eleven distinct channels: ten remain, the last one first, the first one gone. */
  lemma {:induction false} ElevenDistinct(ids: seq<ChannelId>)
    requires NoDup(ids) && |ids| == 11
    ensures |RecordAll([], ids)| == 10
    ensures RecordAll([], ids)[0] == ids[10]
    ensures ids[0] !in RecordAll([], ids)
  {
    RecordDistinct(ids);
    var r := RecordAll([], ids);
    forall k | 0 <= k < |r| ensures r[k] != ids[0] {
      assert r[k] == ids[10 - k];
    }
  }

  /** The channel and slot whose start-of-program alert is due at minute `now`:
      the current program of the channel being watched, if it has not been
      announced yet. */
  function DueAlert(channels: seq<Channel>, current: Option<nat>, now: int): (r: Option<(nat, nat)>)
    ensures r.Some? ==> current == Some(r.value.0) && r.value.0 < |channels|
                        && CurrentSlotIndex(channels[r.value.0].schedule, now) == Some(r.value.1)
                        && !channels[r.value.0].schedule[r.value.1].notified
    ensures current.Some? && current.value < |channels|
            && CurrentSlotIndex(channels[current.value].schedule, now).Some?
            && !channels[current.value].schedule[CurrentSlotIndex(channels[current.value].schedule, now).value].notified
            ==> r.Some?
  {
    match current
    case None => None
    case Some(k) =>
      if k < |channels| then
        match CurrentSlotIndex(channels[k].schedule, now)
        case None => None
        case Some(i) => if channels[k].schedule[i].notified then None else Some((k, i))
      else None
  }

  /** `currentProgram.notified = true`. */
  function MarkNotified(channels: seq<Channel>, k: nat, i: nat): (r: seq<Channel>)
    requires k < |channels| && i < |channels[k].schedule|
    ensures |r| == |channels| && |r[k].schedule| == |channels[k].schedule|
    ensures r[k].schedule[i].notified
    ensures r[k].schedule[i].(notified := false) == channels[k].schedule[i].(notified := false)
    ensures forall j :: 0 <= j < |r| && j != k ==> r[j] == channels[j]
    ensures forall j :: 0 <= j < |r[k].schedule| && j != i ==> r[k].schedule[j] == channels[k].schedule[j]
    ensures r[k].(schedule := []) == channels[k].(schedule := [])
  {
    var schedule := channels[k].schedule;
    channels[k := channels[k].(schedule := schedule[i := schedule[i].(notified := true)])]
  }

  /** Once announced, the same program is not announced again in that minute or
      any later minute it stays current. */
  lemma {:induction false} AlertIsOneShot(channels: seq<Channel>, current: Option<nat>, now: int, later: int)
    requires DueAlert(channels, current, now).Some?
    requires var (k, i) := DueAlert(channels, current, now).value;
             CurrentSlotIndex(channels[k].schedule, later) == Some(i)
    ensures var (k, i) := DueAlert(channels, current, now).value;
            DueAlert(MarkNotified(channels, k, i), current, later).None?
  {
    var (k, i) := DueAlert(channels, current, now).value;
    ResolutionIgnoresNotified(channels[k].schedule, later, i);
  }

  /** Why a catalog load fails: the request did not succeed, or the body was
      not JSON. */
  datatype LoadError = FetchFailed | MalformedFeed

  class ChannelManager {
    var channels: seq<Channel>
    /** Position in `channels` of the channel being watched. */
    var currentChannel: Option<nat>
    var favorites: seq<ChannelId>
    var recentlyWatched: seq<ChannelId>
    /** What the browser store holds under "favorites" and "recentlyWatched";
        `None` when nothing usable is stored. */
    var storedFavorites: Option<seq<ChannelId>>
    var storedRecent: Option<seq<ChannelId>>

    /** Reads both lists from the store, an absent or unreadable entry giving `[]`. */
    constructor (savedFavorites: Option<seq<ChannelId>>, savedRecent: Option<seq<ChannelId>>)
      ensures channels == [] && currentChannel == None
      ensures favorites == (if savedFavorites.Some? then savedFavorites.value else [])
      ensures recentlyWatched == (if savedRecent.Some? then savedRecent.value else [])
      ensures storedFavorites == savedFavorites && storedRecent == savedRecent
    {
      channels := [];
      currentChannel := None;
      favorites := if savedFavorites.Some? then savedFavorites.value else [];
      recentlyWatched := if savedRecent.Some? then savedRecent.value else [];
      storedFavorites := savedFavorites;
      storedRecent := savedRecent;
    }

    /** `loadChannelData`, given what fetching and parsing the feed produced: a
        feed replaces the catalog; a failure is passed on and changes nothing. */
    method LoadChannelData(feed: Result<seq<Channel>, LoadError>) returns (r: Result<seq<Channel>, LoadError>)
      modifies this`channels
      ensures r == feed
      ensures channels == if feed.Ok? then feed.value else old(channels)
    {
      if feed.Err? {
        return feed;
      }
      channels := feed.value;
      r := Ok(channels);
    }

    method ToggleFavorite(id: ChannelId) returns (isFavorite: bool)
      modifies this`favorites, this`storedFavorites
      ensures favorites == Toggled(old(favorites), id)
      ensures storedFavorites == Some(favorites)
      ensures isFavorite <==> id in favorites
      ensures NoDup(old(favorites)) ==> NoDup(favorites) && (isFavorite <==> id !in old(favorites))
    {
      ghost var before := favorites;
      var index := IndexOf(favorites, id);
      if index == -1 {
        favorites := favorites + [id];
      } else {
        favorites := favorites[..index] + favorites[index + 1..];
      }
      storedFavorites := Some(favorites);
      isFavorite := id in favorites;
      if NoDup(before) {
        ToggleFlipsMembership(before, id);
      }
    }

    method AddToRecentlyWatched(id: ChannelId)
      modifies this`recentlyWatched, this`storedRecent
      ensures recentlyWatched == Recorded(old(recentlyWatched), id)
      ensures storedRecent == Some(recentlyWatched)
      ensures recentlyWatched[0] == id && id !in recentlyWatched[1..]
      ensures |old(recentlyWatched)| <= MaxRecentChannels ==> |recentlyWatched| <= MaxRecentChannels
    {
      ghost var before := recentlyWatched;
      recentlyWatched := Without(recentlyWatched, id);
      recentlyWatched := [id] + recentlyWatched;
      if |recentlyWatched| > MaxRecentChannels {
        recentlyWatched := recentlyWatched[..|recentlyWatched| - 1];
      }
      storedRecent := Some(recentlyWatched);
      RecordedShape(before, id);
      if |before| <= MaxRecentChannels {
        RecordedBounded(before, id);
      }
    }
  }
}
