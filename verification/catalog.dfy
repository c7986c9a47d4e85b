/** The channel catalog: channel records, lookup by id, resolution of the
    favorites and recently-watched id lists, and the search/language/category
    filter. */
module Catalog {
  import opened Wrappers
  import opened Text

  type ChannelId = string

  datatype StreamType = Hls | Youtube

  /** One entry of a channel's daily time table. `notified` records that the
      start-of-program alert for it has been shown. */
  datatype Slot = Slot(time: string, program: string, notified: bool)

  datatype Channel = Channel(
    id: ChannelId,
    name: string,
    description: string,
    language: seq<string>,
    category: string,
    image: string,
    kind: StreamType,
    videoLink: string,
    themeColor: Option<string>,
    schedule: seq<Slot>)

  predicate UniqueIds(channels: seq<Channel>)
  {
    forall i, j :: 0 <= i < j < |channels| ==> channels[i].id != channels[j].id
  }

  /** `getChannelById`: the first channel whose id is `id`, or `undefined`. */
  function GetChannelById(channels: seq<Channel>, id: ChannelId): (r: Option<Channel>)
    ensures r.None? <==> forall k :: 0 <= k < |channels| ==> channels[k].id != id
    ensures r.Some? ==> r.value in channels && r.value.id == id
  {
    if channels == [] then None
    else if channels[0].id == id then Some(channels[0])
    else
      var r := GetChannelById(channels[1..], id);
      assert forall k :: 1 <= k < |channels| ==> channels[k] == channels[1..][k - 1];
      r
  }

  /** The channel found is the first one with that id; with unique ids,
      looking up a channel's own id finds that channel. */
  lemma {:induction false} LookupFindsChannel(channels: seq<Channel>, k: nat)
    requires k < |channels|
    requires forall j :: 0 <= j < k ==> channels[j].id != channels[k].id
    ensures GetChannelById(channels, channels[k].id) == Some(channels[k])
  {
    if k > 0 {
      LookupFindsChannel(channels[1..], k - 1);
    }
  }

  lemma UniqueLookup(channels: seq<Channel>, k: nat)
    requires UniqueIds(channels) && k < |channels|
    ensures GetChannelById(channels, channels[k].id) == Some(channels[k])
  {
    LookupFindsChannel(channels, k);
  }

  /** The channel one id resolves to, as a list of zero or one channels. */
  function Resolved(channels: seq<Channel>, id: ChannelId): seq<Channel>
  {
    match GetChannelById(channels, id)
    case None => []
    case Some(c) => [c]
  }

  /** `ids.map(getChannelById).filter(Boolean)`: the channels the ids name, in
      the order of the ids, with every id the catalog does not hold left out. */
  function ResolveIds(channels: seq<Channel>, ids: seq<ChannelId>): (r: seq<Channel>)
    ensures |r| <= |ids|
  {
    if ids == [] then [] else Resolved(channels, ids[0]) + ResolveIds(channels, ids[1..])
  }

  /** Every resolved channel is in the catalog and named by some id of the list. */
  lemma {:induction false} ResolveMembers(channels: seq<Channel>, ids: seq<ChannelId>, c: Channel)
    requires c in ResolveIds(channels, ids)
    ensures c in channels && c.id in ids
  {
    var rest := ResolveIds(channels, ids[1..]);
    assert ResolveIds(channels, ids) == Resolved(channels, ids[0]) + rest;
    if c in rest {
      ResolveMembers(channels, ids[1..], c);
    }
  }

  lemma ResolveCons(channels: seq<Channel>, id: ChannelId, rest: seq<ChannelId>)
    ensures ResolveIds(channels, [id] + rest) == Resolved(channels, id) + ResolveIds(channels, rest)
  {
    assert ([id] + rest)[0] == id;
    assert ([id] + rest)[1..] == rest;
  }

  lemma ResolveHead(channels: seq<Channel>, a: seq<ChannelId>, b: seq<ChannelId>)
    requires a != []
    ensures ResolveIds(channels, a + b) == Resolved(channels, a[0]) + ResolveIds(channels, a[1..] + b)
  {
    assert (a + b)[0] == a[0];
    assert (a + b)[1..] == a[1..] + b;
  }

  /** Resolution works id by id, so it keeps the order of the list. */
  lemma {:induction false} ResolveAppend(channels: seq<Channel>, a: seq<ChannelId>, b: seq<ChannelId>)
    ensures ResolveIds(channels, a + b) == ResolveIds(channels, a) + ResolveIds(channels, b)
  {
    if a == [] {
      assert a + b == b;
    } else {
      ResolveAppend(channels, a[1..], b);
      ResolveHead(channels, a, b);
    }
  }

  /** An id the catalog no longer holds is dropped without a trace. */
  lemma DanglingIdDropped(channels: seq<Channel>, a: seq<ChannelId>, id: ChannelId, b: seq<ChannelId>)
    requires GetChannelById(channels, id).None?
    ensures ResolveIds(channels, a + [id] + b) == ResolveIds(channels, a + b)
  {
    ResolveAppend(channels, a + [id], b);
    ResolveAppend(channels, a, [id]);
    ResolveAppend(channels, a, b);
    ResolveCons(channels, id, []);
  }

  /** When every id is known, nothing is dropped: resolution maps each id to
      its channel, position by position. */
  lemma {:induction false} ResolveKnownIds(channels: seq<Channel>, ids: seq<ChannelId>)
    requires forall m :: 0 <= m < |ids| ==> GetChannelById(channels, ids[m]).Some?
    ensures |ResolveIds(channels, ids)| == |ids|
    ensures forall k :: 0 <= k < |ids| ==> ResolveIds(channels, ids)[k] == GetChannelById(channels, ids[k]).value
  {
    if ids != [] {
      assert forall m :: 0 <= m < |ids| - 1 ==> ids[1..][m] == ids[m + 1];
      ResolveKnownIds(channels, ids[1..]);
      var c := GetChannelById(channels, ids[0]).value;
      assert Resolved(channels, ids[0]) == [c];
    }
  }

  /** The criteria of one `filterChannels` call; the empty string stands for a
      criterion that is absent, which JavaScript treats the same way. */
  datatype Criteria = Criteria(search: string, language: string, category: string)

  const NoCriteria := Criteria("", "", "")

  predicate MatchesSearch(c: Channel, search: string)
  {
    search == ""
    || Contains(ToLower(c.name), ToLower(search))
    || Contains(ToLower(c.description), ToLower(search))
  }

  predicate MatchesLanguage(c: Channel, language: string)
  {
    language == "" || language in c.language
  }

  predicate MatchesCategory(c: Channel, category: string)
  {
    category == "" || c.category == category
  }

  /** The three criteria, ANDed. */
  predicate Matches(c: Channel, f: Criteria)
    ensures f == NoCriteria ==> Matches(c, f)
    ensures Matches(c, f) && f.category != "" ==> c.category == f.category
    ensures Matches(c, f) && f.language != "" ==> f.language in c.language
  {
    MatchesSearch(c, f.search) && MatchesLanguage(c, f.language) && MatchesCategory(c, f.category)
  }

  /** `filterChannels`: the channels that meet every criterion given. */
  function FilterChannels(channels: seq<Channel>, f: Criteria): (r: seq<Channel>)
    ensures |r| <= |channels|
  {
    if channels == [] then []
    else
      var rest := FilterChannels(channels[1..], f);
      if Matches(channels[0], f) then [channels[0]] + rest else rest
  }

  /** A channel is kept exactly when it is in the catalog and meets every
      criterion given. */
  lemma {:induction false} FilterMembers(channels: seq<Channel>, f: Criteria, c: Channel)
    ensures c in FilterChannels(channels, f) <==> c in channels && Matches(c, f)
  {
    if channels != [] {
      FilterMembers(channels[1..], f, c);
      assert c in channels <==> c == channels[0] || c in channels[1..] by {
        assert channels == [channels[0]] + channels[1..];
      }
    }
  }

  lemma FilterCons(c: Channel, rest: seq<Channel>, f: Criteria)
    ensures FilterChannels([c] + rest, f) == (if Matches(c, f) then [c] else []) + FilterChannels(rest, f)
  {
    assert ([c] + rest)[0] == c;
    assert ([c] + rest)[1..] == rest;
  }

  /** Filtering works channel by channel, so it keeps catalog order. */
  lemma {:induction false} FilterAppend(a: seq<Channel>, b: seq<Channel>, f: Criteria)
    ensures FilterChannels(a + b, f) == FilterChannels(a, f) + FilterChannels(b, f)
  {
    if a == [] {
      assert a + b == b;
    } else {
      FilterAppend(a[1..], b, f);
      assert a + b == [a[0]] + (a[1..] + b);
      assert a == [a[0]] + a[1..];
      FilterCons(a[0], a[1..] + b, f);
      FilterCons(a[0], a[1..], f);
    }
  }

  /** With no criterion the whole catalog comes back unchanged. */
  lemma {:induction false} FilterWithoutCriteria(channels: seq<Channel>)
    ensures FilterChannels(channels, NoCriteria) == channels
  {
    if channels != [] {
      FilterWithoutCriteria(channels[1..]);
    }
  }

  /** Filtering by all three criteria at once is filtering by each in turn. */
  lemma {:induction false} FilterComposes(channels: seq<Channel>, f: Criteria)
    ensures FilterChannels(channels, f)
         == FilterChannels(FilterChannels(FilterChannels(channels, Criteria(f.search, "", "")),
                                          Criteria("", f.language, "")),
                           Criteria("", "", f.category))
  {
    if channels != [] {
      FilterComposes(channels[1..], f);
      var c := channels[0];
      var s, l, g := Criteria(f.search, "", ""), Criteria("", f.language, ""), Criteria("", "", f.category);
      var rest := channels[1..];
      assert channels == [c] + rest;
      FilterAppend([c], rest, s);
      FilterAppend(FilterChannels([c], s), FilterChannels(rest, s), l);
      FilterAppend(FilterChannels(FilterChannels([c], s), l), FilterChannels(FilterChannels(rest, s), l), g);
    }
  }
}
