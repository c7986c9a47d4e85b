/** Schedule resolution: which slot of a channel's daily time table is airing at
    a given minute of the day. The wall clock is not read; the minute since
    midnight is a parameter. */
module Schedule {
  import opened Wrappers
  import opened Text
  import opened Catalog

  /** The test `getCurrentProgram` applies to slot `i`: its start time is not
      later than `now` and, unless it is the last slot, `now` is before the next
      slot's start. A time that is not a number (NaN) fails every comparison. */
  predicate Covers(schedule: seq<Slot>, i: nat, now: int)
    requires i < |schedule|
    ensures Covers(schedule, i, now) ==> HasStart(schedule, i) && Start(schedule, i) <= now
    ensures Covers(schedule, i, now) && i + 1 < |schedule| ==>
              HasStart(schedule, i + 1) && now < Start(schedule, i + 1)
  {
    match ParseTime(schedule[i].time)
    case None => false
    case Some(start) =>
      if i + 1 == |schedule| then start <= now
      else
        match ParseTime(schedule[i + 1].time)
        case None => false
        case Some(next) => start <= now && now < next
  }

  /** `schedule.find(...)` started at position `i`: the first covering slot. */
  function FindFrom(schedule: seq<Slot>, now: int, i: nat): (r: Option<nat>)
    requires i <= |schedule|
    ensures r.Some? ==> i <= r.value < |schedule| && Covers(schedule, r.value, now)
                        && forall j :: i <= j < r.value ==> !Covers(schedule, j, now)
    ensures r.None? ==> forall j :: i <= j < |schedule| ==> !Covers(schedule, j, now)
    decreases |schedule| - i
  {
    if i == |schedule| then None
    else if Covers(schedule, i, now) then Some(i)
    else FindFrom(schedule, now, i + 1)
  }

  /** The position of the slot `getCurrentProgram` returns, or `None` for `undefined`. */
  function CurrentSlotIndex(schedule: seq<Slot>, now: int): (r: Option<nat>)
    ensures r.Some? ==> r.value < |schedule| && Covers(schedule, r.value, now)
                        && forall j :: 0 <= j < r.value ==> !Covers(schedule, j, now)
    ensures r.None? ==> forall j :: 0 <= j < |schedule| ==> !Covers(schedule, j, now)
  {
    FindFrom(schedule, now, 0)
  }

  /** `getCurrentProgram(schedule)` at minute `now`. */
  function GetCurrentProgram(schedule: seq<Slot>, now: int): (r: Option<Slot>)
    ensures r.Some? <==> CurrentSlotIndex(schedule, now).Some?
    ensures r.Some? ==> r.value == schedule[CurrentSlotIndex(schedule, now).value]
  {
    match CurrentSlotIndex(schedule, now)
    case None => None
    case Some(i) => Some(schedule[i])
  }

  predicate HasStart(schedule: seq<Slot>, i: nat)
  {
    i < |schedule| && ParseTime(schedule[i].time).Some?
  }

  function Start(schedule: seq<Slot>, i: nat): int
    requires HasStart(schedule, i)
  {
    ParseTime(schedule[i].time).value
  }

  /** Every slot time parses, and the times strictly increase. */
  predicate Ascending(schedule: seq<Slot>)
  {
    (forall i :: 0 <= i < |schedule| ==> HasStart(schedule, i))
    && forall i, j :: 0 <= i < j < |schedule| && HasStart(schedule, i) && HasStart(schedule, j)
         ==> Start(schedule, i) < Start(schedule, j)
  }

  /** In an ascending schedule slot `i` is the current one exactly when its
      start has been reached and the next slot's start has not. */
  lemma CurrentSlotExactly(schedule: seq<Slot>, now: int, i: nat)
    requires Ascending(schedule) && i < |schedule|
    ensures CurrentSlotIndex(schedule, now) == Some(i)
        <==> Start(schedule, i) <= now && (i + 1 == |schedule| || now < Start(schedule, i + 1))
  {
    assert HasStart(schedule, i);
    assert i + 1 < |schedule| ==> HasStart(schedule, i + 1);
    assert Covers(schedule, i, now)
        <==> Start(schedule, i) <= now && (i + 1 == |schedule| || now < Start(schedule, i + 1));
    var r := CurrentSlotIndex(schedule, now);
    if r.Some? && r.value < i {
      AtMostOneCovers(schedule, now, r.value, i);
    } else if r.Some? && r.value > i {
      AtMostOneCovers(schedule, now, i, r.value);
    }
  }

  /** In an ascending schedule no two slots cover the same minute. */
  lemma AtMostOneCovers(schedule: seq<Slot>, now: int, j: nat, k: nat)
    requires Ascending(schedule) && j < k < |schedule|
    ensures !(Covers(schedule, j, now) && Covers(schedule, k, now))
  {
    assert HasStart(schedule, j) && HasStart(schedule, j + 1) && HasStart(schedule, k);
    assert Start(schedule, j + 1) <= Start(schedule, k);
  }

  /** The last slot runs to the end of the day. */
  lemma LastSlotOpenEnded(schedule: seq<Slot>, now: int)
    requires Ascending(schedule) && schedule != []
    requires Start(schedule, |schedule| - 1) <= now
    ensures CurrentSlotIndex(schedule, now) == Some(|schedule| - 1)
  {
    CurrentSlotExactly(schedule, now, |schedule| - 1);
  }

  /** From slot `i` on, some slot covers any minute at or after slot `i`'s start. */
  lemma {:induction false} SomeSlotCovers(schedule: seq<Slot>, now: int, i: nat)
    requires Ascending(schedule) && i < |schedule|
    requires Start(schedule, i) <= now
    ensures exists j :: i <= j < |schedule| && Covers(schedule, j, now)
    decreases |schedule| - i
  {
    assert HasStart(schedule, i);
    if i + 1 == |schedule| {
      assert Covers(schedule, i, now);
    } else {
      assert HasStart(schedule, i + 1);
      if now < Start(schedule, i + 1) {
        assert Covers(schedule, i, now);
      } else {
        SomeSlotCovers(schedule, now, i + 1);
      }
    }
  }

  /** In an ascending schedule nothing is current exactly when the schedule is
      empty or `now` is before its first slot. */
  lemma NothingBeforeFirstSlot(schedule: seq<Slot>, now: int)
    requires Ascending(schedule)
    ensures CurrentSlotIndex(schedule, now).None? <==> schedule == [] || now < Start(schedule, 0)
  {
    if schedule != [] {
      assert HasStart(schedule, 0);
      if Start(schedule, 0) <= now {
        SomeSlotCovers(schedule, now, 0);
      } else {
        forall j | 0 <= j < |schedule| ensures !Covers(schedule, j, now) {
          assert HasStart(schedule, j);
          assert j > 0 ==> Start(schedule, 0) < Start(schedule, j);
        }
      }
    }
  }

  /** Two schedules with the same slot times resolve to the same position, so
      marking a slot as notified never changes which slot is current. */
  predicate SameTimes(s: seq<Slot>, t: seq<Slot>)
  {
    |s| == |t| && forall k :: 0 <= k < |s| ==> s[k].time == t[k].time
  }

  lemma {:induction false} FindFromSameTimes(s: seq<Slot>, t: seq<Slot>, now: int, i: nat)
    requires SameTimes(s, t) && i <= |s|
    ensures FindFrom(s, now, i) == FindFrom(t, now, i)
    decreases |s| - i
  {
    if i < |s| {
      assert Covers(s, i, now) == Covers(t, i, now);
      FindFromSameTimes(s, t, now, i + 1);
    }
  }

  lemma ResolutionIgnoresNotified(schedule: seq<Slot>, now: int, i: nat)
    requires i < |schedule|
    ensures CurrentSlotIndex(schedule[i := schedule[i].(notified := true)], now) == CurrentSlotIndex(schedule, now)
  {
    FindFromSameTimes(schedule[i := schedule[i].(notified := true)], schedule, now, 0);
  }

  /** A day whose three slots start at 08:00, 12:00 and 18:00 (the texts
      `TimeText(8, 0)`, `TimeText(12, 0)` and `TimeText(18, 0)` parse to these
      minutes, by `ParseTimeText`). */
  predicate ExampleDay(day: seq<Slot>)
  {
    |day| == 3
    && ParseTime(day[0].time) == Some(8 * 60)
    && ParseTime(day[1].time) == Some(12 * 60)
    && ParseTime(day[2].time) == Some(18 * 60)
  }

  lemma ExampleDayResolution(day: seq<Slot>)
    requires ExampleDay(day)
    ensures CurrentSlotIndex(day, 7 * 60 + 59) == None
    ensures CurrentSlotIndex(day, 8 * 60) == Some(0)
    ensures CurrentSlotIndex(day, 11 * 60 + 59) == Some(0)
    ensures CurrentSlotIndex(day, 12 * 60) == Some(1)
    ensures CurrentSlotIndex(day, 23 * 60 + 59) == Some(2)
  {
    assert HasStart(day, 0) && HasStart(day, 1) && HasStart(day, 2);
    assert Ascending(day);
    NothingBeforeFirstSlot(day, 7 * 60 + 59);
    CurrentSlotExactly(day, 8 * 60, 0);
    CurrentSlotExactly(day, 11 * 60 + 59, 0);
    CurrentSlotExactly(day, 12 * 60, 1);
    LastSlotOpenEnded(day, 23 * 60 + 59);
  }
}
