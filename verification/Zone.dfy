/** Local time over a table of transitions: toLocalTime and fromLocalTime of
    netlib/base/TimeZone.cc. Times in the table are those of RFC 8536, section 3.2. */
module Zone {
  import opened Date
  import opened TimeZone

  datatype Transition = Transition(gmttime: int, localtime: int, localtimeIdx: nat)
  datatype LocalType = LocalType(gmtOffset: int, isDst: bool)
  datatype Data = Data(transitions: seq<Transition>, localtimes: seq<LocalType>)

  // ---- Tables ----

  /** What the comparison looks at: UTC or local time. */
  function Key(t: Transition, compareGmt: bool): int {
    if compareGmt then t.gmttime else t.localtime
  }

  predicate Ascending(ts: seq<Transition>, compareGmt: bool) {
    forall i, j | 0 <= i < j < |ts| :: Key(ts[i], compareGmt) < Key(ts[j], compareGmt)
  }

  predicate Int32(x: int) {
    -0x8000_0000 <= x < 0x8000_0000
  }

  /** A table as readTimeZoneFile builds it, ascending in both clocks. */
  predicate Table(data: Data) {
    && |data.localtimes| > 0
    && (forall lt <- data.localtimes :: Int32(lt.gmtOffset))
    && (forall t <- data.transitions ::
          && t.localtimeIdx < |data.localtimes| && Int32(t.gmttime)
          && t.localtime == t.gmttime + data.localtimes[t.localtimeIdx].gmtOffset)
    && Ascending(data.transitions, true)
    && Ascending(data.transitions, false)
  }

  /** The last transition at or before x, by scanning from the end; -1 if there is none. */
  function Segment(ts: seq<Transition>, compareGmt: bool, x: int): (k: int)
    ensures -1 <= k < |ts|
    ensures k >= 0 ==> Key(ts[k], compareGmt) <= x
    ensures forall i | k < i < |ts| :: x < Key(ts[i], compareGmt)
  {
    if |ts| == 0 then -1
    else if Key(ts[|ts| - 1], compareGmt) <= x then |ts| - 1
    else Segment(ts[..|ts| - 1], compareGmt, x)
  }

  /** The local time type in force after the k-th transition; the first type before any. */
  function TypeOf(data: Data, k: int): LocalType
    requires Table(data) && -1 <= k < |data.transitions|
  {
    if k == -1 then data.localtimes[0] else data.localtimes[data.transitions[k].localtimeIdx]
  }

  // ---- The search ----

  /** std::lower_bound: the first transition whose key is not below x. */
  method LowerBound(ts: seq<Transition>, compareGmt: bool, x: int) returns (first: nat)
    requires Ascending(ts, compareGmt)
    ensures first <= |ts|
    ensures forall i | 0 <= i < first :: Key(ts[i], compareGmt) < x
    ensures forall i | first <= i < |ts| :: x <= Key(ts[i], compareGmt)
  {
    first := 0;
    var len := |ts|;
    while len > 0
      invariant 0 <= first <= first + len <= |ts|
      invariant forall i | 0 <= i < first :: Key(ts[i], compareGmt) < x
      invariant forall i | first + len <= i < |ts| :: x <= Key(ts[i], compareGmt)
    {
      var half := len / 2;
      if Key(ts[first + half], compareGmt) < x {
        first := first + half + 1;
        len := len - half - 1;
      } else {
        len := half;
      }
    }
  }

  /** The binary search finds what the linear scan finds. */
  method FindLocalTime(data: Data, x: int, compareGmt: bool) returns (local: LocalType)
    requires Table(data)
    ensures local == TypeOf(data, Segment(data.transitions, compareGmt, x))
  {
    var ts := data.transitions;
    if |ts| == 0 || x < Key(ts[0], compareGmt) {
      SegmentIs(ts, compareGmt, x, -1);
      local := data.localtimes[0];
    } else {
      var i := LowerBound(ts, compareGmt, x);
      if i != |ts| {
        if x != Key(ts[i], compareGmt) {
          assert i != 0;
          i := i - 1;
        }
        SegmentIs(ts, compareGmt, x, i);
        local := data.localtimes[ts[i].localtimeIdx];
      } else {
        SegmentIs(ts, compareGmt, x, |ts| - 1);
        local := data.localtimes[ts[|ts| - 1].localtimeIdx];
      }
    }
  }

  /** In an ascending table the segment of x is the one that brackets it. */
  lemma SegmentIs(ts: seq<Transition>, compareGmt: bool, x: int, k: int)
    requires Ascending(ts, compareGmt) && -1 <= k < |ts|
    requires k >= 0 ==> Key(ts[k], compareGmt) <= x
    requires k + 1 < |ts| ==> x < Key(ts[k + 1], compareGmt)
    ensures Segment(ts, compareGmt, x) == k
  {
    assert forall i | k + 1 < i < |ts| :: Key(ts[k + 1], compareGmt) < Key(ts[i], compareGmt);
  }

  // ---- The two conversions ----

  /** The fields of an instant under a local time type. */
  function FieldsAt(t: int, local: LocalType): Tm {
    ToUtcTime(t + local.gmtOffset, true).(isdst := if local.isDst then 1 else 0, gmtoff := local.gmtOffset)
  }

  function LocalFields(data: Data, t: int): Tm
    requires Table(data)
  {
    FieldsAt(t, TypeOf(data, Segment(data.transitions, true, t)))
  }

  method ToLocalTime(data: Data, seconds: int) returns (tm: Tm)
    requires Table(data)
    ensures tm == LocalFields(data, seconds)
  {
    hide ToUtcTime, Table;
    var local := FindLocalTime(data, seconds, true);
    var localSeconds := seconds + local.gmtOffset;
    tm := ToUtcTime(localSeconds, true);
    tm := tm.(isdst := if local.isDst then 1 else 0);
    tm := tm.(gmtoff := local.gmtOffset);
  }

  /** Daylight-saving fields that name an hour the standard-time segment repeats. */
  predicate FirstPassOf(data: Data, tm: Tm, local: LocalType)
    requires Table(data)
  {
    var again := LocalFields(data, FromUtcTime(tm) - local.gmtOffset);
    tm.isdst != 0 && again.isdst == 0 && again.hour == tm.hour && again.min == tm.min
  }

  function LocalInstant(data: Data, tm: Tm): int
    requires Table(data)
  {
    var seconds := FromUtcTime(tm);
    var local := TypeOf(data, Segment(data.transitions, false, seconds));
    seconds - local.gmtOffset - if FirstPassOf(data, tm, local) then 3600 else 0
  }

  method FromLocalTime(data: Data, localtime: Tm) returns (r: int)
    requires Table(data)
    ensures r == LocalInstant(data, localtime)
  {
    hide ToUtcTime;
    var seconds := FromUtcTime(localtime);
    var local := FindLocalTime(data, seconds, false);
    if localtime.isdst != 0 {
      var tryTm := ToLocalTime(data, seconds - local.gmtOffset);
      if tryTm.isdst == 0 && tryTm.hour == localtime.hour && tryTm.min == localtime.min {
        seconds := seconds - 3600;
      }
    }
    return seconds - local.gmtOffset;
  }

  /** From the k-th transition to the next, and from the beginning to the first, the zone shows UTC shifted by the
      offset of the transition's type, or of the first type; with the offset shown the instant can be told. */
  lemma LocalFieldsBetween(data: Data, t: int, k: int)
    requires Table(data) && -1 <= k < |data.transitions|
    requires k >= 0 ==> data.transitions[k].gmttime <= t
    requires k + 1 < |data.transitions| ==> t < data.transitions[k + 1].gmttime
    ensures k >= 0 ==> data.transitions[k].localtimeIdx < |data.localtimes|
    ensures var local := data.localtimes[if k >= 0 then data.transitions[k].localtimeIdx else 0];
            var tm := LocalFields(data, t); var utc := ToUtcTime(t + local.gmtOffset, true);
            && tm.gmtoff == local.gmtOffset && (tm.isdst != 0 <==> local.isDst)
            && SameFields(tm, utc) && tm.wday == utc.wday && tm.yday == utc.yday
            && (DayInRange(t + local.gmtOffset) ==> FromUtcTime(tm) - tm.gmtoff == t)
  {
    hide ToUtcTime, FromUtcTime, DayInRange, Segment;
    SegmentIs(data.transitions, true, t, k);
    assert k >= 0 ==> data.transitions[k] in data.transitions;
    var local := TypeOf(data, k);
    if DayInRange(t + local.gmtOffset) {
      FieldsAtInstant(t, local);
    }
  }

  /** Standard-time fields that the clocks jump over are read with the offset before the jump:
      they name an instant after it. */
  lemma SkippedFields(data: Data, k: int, tm: Tm)
    requires Table(data) && 0 <= k < |data.transitions| && tm.isdst == 0
    requires data.transitions[k].gmttime + OffsetOf(data, k - 1) <= FromUtcTime(tm) < data.transitions[k].localtime
    ensures LocalInstant(data, tm) == FromUtcTime(tm) - OffsetOf(data, k - 1) >= data.transitions[k].gmttime
  {
    hide FromUtcTime, Segment, Table, TypeOf;
    if k > 0 {
      LocalKey(data, k - 1);
      assert Key(data.transitions[k - 1], true) < Key(data.transitions[k], true);
    }
    LocalKey(data, k);
    OffsetIs(data, k - 1);
    SegmentIs(data.transitions, false, FromUtcTime(tm), k - 1);
  }

  // ---- Round trips ----

  function OffsetOf(data: Data, k: int): int
    requires Table(data) && -1 <= k < |data.transitions|
  {
    TypeOf(data, k).gmtOffset
  }

  /** How far clocks go back at the k-th transition. */
  function Drop(data: Data, k: int): int
    requires Table(data) && 0 <= k < |data.transitions|
  {
    OffsetOf(data, k - 1) - OffsetOf(data, k)
  }

  predicate IsDst(data: Data, k: int)
    requires Table(data) && -1 <= k < |data.transitions|
  {
    TypeOf(data, k).isDst
  }

  /** One hour back, from a daylight-saving type to one that is not. */
  predicate AutumnHour(data: Data, k: int)
    requires Table(data) && 0 <= k < |data.transitions|
  {
    Drop(data, k) == 3600 && IsDst(data, k - 1) && !IsDst(data, k)
  }

  predicate RoundTrips(data: Data, t: int)
    requires Table(data)
  {
    LocalInstant(data, LocalFields(data, t)) == t
  }

  /** t lies in the first pass through the interval that the next transition repeats. */
  predicate InFirstPass(data: Data, t: int)
    requires Table(data)
  {
    var k := Segment(data.transitions, true, t);
    k + 1 < |data.transitions| && t >= data.transitions[k + 1].gmttime - Drop(data, k + 1)
  }

  /** The day of the local time of t is in the range of the calendar. */
  predicate LocalDayInRange(data: Data, t: int)
    requires Table(data)
  {
    DayInRange(t + OffsetOf(data, Segment(data.transitions, true, t)))
  }

  lemma FieldsAtInstant(t: int, local: LocalType)
    requires DayInRange(t + local.gmtOffset)
    ensures FromUtcTime(FieldsAt(t, local)) == t + local.gmtOffset
  {
    hide ToUtcTime, GetJulianDayNumber, DayInRange;
    UtcRoundTrip(t + local.gmtOffset, true);
  }

  lemma LocalKey(data: Data, k: int)
    requires Table(data) && 0 <= k < |data.transitions|
    ensures data.transitions[k].localtime == data.transitions[k].gmttime + OffsetOf(data, k)
    ensures Ascending(data.transitions, true) && Ascending(data.transitions, false)
  {
    assert data.transitions[k] in data.transitions;
  }

  /** Outside a first pass the local time of t is looked up in t's own segment. */
  lemma LocalSegment(data: Data, t: int)
    requires Table(data) && !InFirstPass(data, t)
    ensures var k := Segment(data.transitions, true, t);
            Segment(data.transitions, false, t + OffsetOf(data, k)) == k
  {
    hide Table, TypeOf, OffsetOf, InFirstPass, Segment, Ascending;
    var ts := data.transitions;
    var k := Segment(ts, true, t);
    OutsideFacts(data, t);
    if k >= 0 {
      LocalKey(data, k);
    }
    if k + 1 < |ts| {
      LocalKey(data, k + 1);
    }
    AscendingInLocal(data);
    SegmentIs(ts, false, t + OffsetOf(data, k), k);
  }

  lemma AscendingInLocal(data: Data)
    requires Table(data)
    ensures Ascending(data.transitions, false)
  {
  }

  lemma OutsideFacts(data: Data, t: int)
    requires Table(data) && !InFirstPass(data, t)
    ensures var ts := data.transitions; var k := Segment(ts, true, t);
            && -1 <= k < |ts| && (k >= 0 ==> ts[k].gmttime <= t)
            && (k + 1 < |ts| ==> t < ts[k + 1].gmttime - Drop(data, k + 1))
  {
    var k := Segment(data.transitions, true, t);
    assert k >= 0 ==> Key(data.transitions[k], true) <= t;
  }

  lemma FirstPassFacts(data: Data, t: int)
    requires Table(data) && InFirstPass(data, t)
    ensures var ts := data.transitions; var k := Segment(ts, true, t);
            && -1 <= k && k + 1 < |ts|
            && ts[k + 1].gmttime - Drop(data, k + 1) <= t < ts[k + 1].gmttime
  {
    assert t < Key(data.transitions[Segment(data.transitions, true, t) + 1], true);
  }

  predicate SameMinute(x: int, y: int) {
    x % SECONDS_PER_DAY / 60 == y % SECONDS_PER_DAY / 60
  }

  /** At instant u the zone is not on daylight-saving time and shows the hour and minute of the local time x. */
  predicate ShowsAgain(data: Data, x: int, u: int)
    requires Table(data)
  {
    var n := Segment(data.transitions, true, u);
    !IsDst(data, n) && SameMinute(x, u + OffsetOf(data, n))
  }

  /** In any table an instant survives the round trip exactly when its local time is looked up under its own
      offset, or under one an hour less, its own type is daylight-saving, and an hour later the zone is not and
      shows the same minute. */
  lemma RoundTripIff(data: Data, t: int)
    requires Table(data) && LocalDayInRange(data, t)
    ensures var k := Segment(data.transitions, true, t);
            var x := t + OffsetOf(data, k);
            var drop := OffsetOf(data, k) - OffsetOf(data, Segment(data.transitions, false, x));
            RoundTrips(data, t) <==> drop == 0 || (drop == 3600 && IsDst(data, k) && ShowsAgain(data, x, t + 3600))
  {
    hide ToUtcTime, FromUtcTime, DayInRange, Table, OffsetOf, TypeOf, Segment, SameMinute;
    var k := Segment(data.transitions, true, t);
    OffsetIs(data, k);
    FieldsAtInstant(t, TypeOf(data, k));
    var x := t + OffsetOf(data, k);
    var m := Segment(data.transitions, false, x);
    OffsetIs(data, m);
    var u := x - OffsetOf(data, m);
    var n := Segment(data.transitions, true, u);
    OffsetIs(data, n);
    ClockShown(t, TypeOf(data, k), u, TypeOf(data, n));
    assert IsDst(data, k) == TypeOf(data, k).isDst && IsDst(data, n) == TypeOf(data, n).isDst;
  }

  /** Two instants show the same hour and minute exactly when they fall into the same minute of the day. */
  lemma ClockShown(t: int, here: LocalType, u: int, there: LocalType)
    ensures var a := FieldsAt(t, here); var b := FieldsAt(u, there);
            a.hour == b.hour && a.min == b.min <==> SameMinute(t + here.gmtOffset, u + there.gmtOffset)
  {
    hide ToUtcTime, GetYearMonthDay, GetJulianDayNumber;
    UtcParts(t + here.gmtOffset, true);
    UtcParts(u + there.gmtOffset, true);
    MinuteOfDay(FieldsAt(t, here));
    MinuteOfDay(FieldsAt(u, there));
  }

  lemma MinuteOfDay(tm: Tm)
    requires ValidClock(tm)
    ensures SecondOfDay(tm) / 60 == tm.hour * 60 + tm.min
  {
  }

  lemma OffsetIs(data: Data, k: int)
    requires Table(data) && -1 <= k < |data.transitions|
    ensures OffsetOf(data, k) == TypeOf(data, k).gmtOffset
  {
  }

  lemma SmallTimesInRange(t: int)
    requires -0x1_0000_0001 <= t
    ensures DayInRange(t)
  {
  }

  /** The x-th second of the hour repeated at the k-th transition is looked up under the new offset,
      and the zone shows it on standard time. */
  predicate CleanAt(data: Data, k: int, x: int)
    requires Table(data) && 0 <= k < |data.transitions|
  {
    var t := data.transitions[k];
    && OffsetOf(data, Segment(data.transitions, false, t.localtime + x)) == OffsetOf(data, k)
    && ShowsAgain(data, t.localtime + x, t.gmttime + x)
  }

  predicate RepeatsCleanly(data: Data, k: int)
    requires Table(data) && 0 <= k < |data.transitions|
  {
    forall x | 0 <= x < 3600 :: CleanAt(data, k, x)
  }

  ghost predicate AllRoundTrip(data: Data)
    requires Table(data)
  {
    forall t | LocalDayInRange(data, t) :: RoundTrips(data, t)
  }

  /** In any table every instant survives the round trip exactly when every time clocks go back, they go back
      one hour from a daylight-saving type to one that is not, and no later transition disturbs the repeat. */
  lemma ZoneRoundTripIff(data: Data)
    requires Table(data)
    ensures AllRoundTrip(data) <==>
            forall k | 0 <= k < |data.transitions| && Drop(data, k) > 0 :: AutumnHour(data, k) && RepeatsCleanly(data, k)
  {
    hide RoundTrips, LocalDayInRange, AutumnHour, Table, RepeatsCleanly, Drop;
    if forall k | 0 <= k < |data.transitions| && Drop(data, k) > 0 :: AutumnHour(data, k) && RepeatsCleanly(data, k) {
      forall t | LocalDayInRange(data, t) ensures RoundTrips(data, t) {
        if InFirstPass(data, t) {
          FirstPassFacts(data, t);
          FirstPassReturns(data, t);
        } else {
          OutsideReturns(data, t);
        }
      }
    }
    if AllRoundTrip(data) {
      forall k | 0 <= k < |data.transitions| && Drop(data, k) > 0
        ensures AutumnHour(data, k) && RepeatsCleanly(data, k)
      {
        if !AutumnHour(data, k) {
          OtherDropLoses(data, k);
        }
        assert RepeatsCleanly(data, k) by {
          forall x | 0 <= x < 3600 ensures CleanAt(data, k, x) {
            SecondIsClean(data, k, x);
          }
          hide CleanAt;
          CleanAlways(data, k);
        }
      }
    }
  }

  lemma CleanAlways(data: Data, k: int)
    requires Table(data) && 0 <= k < |data.transitions|
    requires forall x | 0 <= x < 3600 :: CleanAt(data, k, x)
    ensures RepeatsCleanly(data, k)
  {
  }

  lemma OutsideReturns(data: Data, t: int)
    requires Table(data) && LocalDayInRange(data, t) && !InFirstPass(data, t)
    ensures RoundTrips(data, t)
  {
    hide RoundTrips, LocalDayInRange, Table, InFirstPass, OffsetOf, Segment;
    LocalSegment(data, t);
    RoundTripIff(data, t);
  }

  lemma FirstPassReturns(data: Data, t: int)
    requires Table(data) && LocalDayInRange(data, t) && InFirstPass(data, t)
    requires var k := Segment(data.transitions, true, t) + 1; AutumnHour(data, k) && RepeatsCleanly(data, k)
    ensures RoundTrips(data, t)
  {
    hide RoundTrips, LocalDayInRange, Table, InFirstPass, OffsetOf, Segment, ShowsAgain;
    FirstPassFacts(data, t);
    var k := Segment(data.transitions, true, t) + 1;
    LocalKey(data, k);
    assert CleanAt(data, k, t + 3600 - data.transitions[k].gmttime);
    RoundTripIff(data, t);
  }

  /** The instant x seconds into the interval that the k-th transition repeats. */
  lemma FirstPassInstant(data: Data, k: int, x: int)
    requires Table(data) && 0 <= k < |data.transitions| && 0 <= x < Drop(data, k)
    ensures var t := data.transitions[k].gmttime - Drop(data, k) + x;
            && Segment(data.transitions, true, t) == k - 1
            && t + OffsetOf(data, k - 1) == data.transitions[k].localtime + x
            && LocalDayInRange(data, t)
  {
    var t := data.transitions[k].gmttime - Drop(data, k) + x;
    hide Segment, OffsetOf, DayInRange, Table;
    LocalKey(data, k);
    if k > 0 {
      LocalKey(data, k - 1);
    }
    SegmentIs(data.transitions, true, t, k - 1);
    LocalIsSmall(data, k);
    SmallTimesInRange(data.transitions[k].localtime + x);
  }

  lemma LocalIsSmall(data: Data, k: int)
    requires Table(data) && 0 <= k < |data.transitions|
    ensures data.transitions[k].localtime >= -0x1_0000_0000
  {
    assert data.transitions[k] in data.transitions;
    assert data.localtimes[data.transitions[k].localtimeIdx] in data.localtimes;
  }

  lemma SegmentAt(data: Data, compareGmt: bool, k: int)
    requires Table(data) && 0 <= k < |data.transitions|
    ensures Segment(data.transitions, compareGmt, Key(data.transitions[k], compareGmt)) == k
  {
    hide Segment;
    SegmentIs(data.transitions, compareGmt, Key(data.transitions[k], compareGmt), k);
  }

  /** Where clocks go back by anything but an autumn hour, the first instant to be repeated is lost. */
  lemma OtherDropLoses(data: Data, k: int)
    requires Table(data) && 0 <= k < |data.transitions| && Drop(data, k) > 0 && !AutumnHour(data, k)
    ensures var t := data.transitions[k].gmttime - Drop(data, k); LocalDayInRange(data, t) && !RoundTrips(data, t)
  {
    hide RoundTrips, LocalDayInRange, Table, OffsetOf, Segment, SameMinute;
    var t := data.transitions[k].gmttime - Drop(data, k);
    FirstPassInstant(data, k, 0);
    RoundTripIff(data, t);
    SegmentAt(data, false, k);
    SegmentAt(data, true, k);
  }

  lemma SecondIsClean(data: Data, k: int, x: int)
    requires Table(data) && AllRoundTrip(data) && 0 <= k < |data.transitions| && AutumnHour(data, k)
    requires 0 <= x < 3600
    ensures CleanAt(data, k, x)
  {
    hide RoundTrips, LocalDayInRange, Table, OffsetOf, Segment, ShowsAgain;
    var t := data.transitions[k].gmttime - 3600 + x;
    FirstPassInstant(data, k, x);
    RoundTripIff(data, t);
    var m := Segment(data.transitions, false, data.transitions[k].localtime + x);
    LaterSegment(data, k, x);
    LocalKey(data, k);
    LocalKey(data, m);
    assert k < m ==> Key(data.transitions[k], true) < Key(data.transitions[m], true);
  }

  lemma LaterSegment(data: Data, k: int, x: int)
    requires Table(data) && 0 <= k < |data.transitions| && 0 <= x
    ensures var m := Segment(data.transitions, false, data.transitions[k].localtime + x);
            k <= m < |data.transitions| && data.transitions[m].localtime <= data.transitions[k].localtime + x
  {
    hide Table;
    var m := Segment(data.transitions, false, data.transitions[k].localtime + x);
    assert m < k ==> data.transitions[k].localtime + x < Key(data.transitions[k], false);
    assert m >= 0 ==> Key(data.transitions[m], false) <= data.transitions[k].localtime + x;
  }

  /** No transition within an hour after the k-th, in either clock. */
  predicate HourClear(data: Data, k: int)
    requires Table(data) && 0 <= k < |data.transitions|
  {
    k + 1 < |data.transitions| ==>
      && data.transitions[k + 1].gmttime - data.transitions[k].gmttime >= 3600
      && data.transitions[k + 1].localtime - data.transitions[k].localtime >= 3600
  }

  lemma ClearRepeats(data: Data, k: int)
    requires Table(data) && 0 <= k < |data.transitions| && AutumnHour(data, k) && HourClear(data, k)
    ensures RepeatsCleanly(data, k)
  {
    hide Table, OffsetOf, Segment;
    LocalKey(data, k);
    forall x | 0 <= x < 3600 ensures CleanAt(data, k, x) {
      SegmentIs(data.transitions, false, data.transitions[k].localtime + x, k);
      SegmentIs(data.transitions, true, data.transitions[k].gmttime + x, k);
    }
  }

  /** In a table whose autumn hours are clear of other transitions, every instant survives
      exactly when clocks only ever go back by autumn hours. */
  lemma ClearRoundTripIff(data: Data)
    requires Table(data)
    requires forall k | 0 <= k < |data.transitions| && AutumnHour(data, k) :: HourClear(data, k)
    ensures AllRoundTrip(data) <==>
            forall k | 0 <= k < |data.transitions| && Drop(data, k) > 0 :: AutumnHour(data, k)
  {
    hide AllRoundTrip, AutumnHour, Table, RepeatsCleanly, Drop, HourClear;
    ZoneRoundTripIff(data);
    forall k | 0 <= k < |data.transitions| && AutumnHour(data, k) ensures RepeatsCleanly(data, k) {
      ClearRepeats(data, k);
    }
  }

  /** Transitions more than an hour apart in both clocks that only ever take back an autumn hour:
      every instant survives, both passes through the repeated hour included. */
  lemma HourApartRoundTrip(data: Data, t: int)
    requires Table(data) && LocalDayInRange(data, t)
    requires forall k {:trigger data.transitions[k]} | 0 <= k < |data.transitions| - 1 ::
      && data.transitions[k + 1].gmttime - data.transitions[k].gmttime > 3600
      && data.transitions[k + 1].localtime - data.transitions[k].localtime > 3600
    requires forall k | 0 <= k < |data.transitions| && Drop(data, k) > 0 :: AutumnHour(data, k)
    ensures LocalInstant(data, LocalFields(data, t)) == t
  {
    hide Table, LocalDayInRange, LocalFields, LocalInstant, AutumnHour, Drop;
    ClearRoundTripIff(data);
    assert RoundTrips(data, t);
  }

  /** One such table: daylight-saving time of half an hour, ending at 100000. */
  const HALF_HOUR := Data([Transition(100000, 100000, 1)], [LocalType(1800, true), LocalType(0, false)])

  lemma HalfHourIsLost()
    ensures Table(HALF_HOUR) && LocalDayInRange(HALF_HOUR, 98200) && !RoundTrips(HALF_HOUR, 98200)
  {
    assert Table(HALF_HOUR) && Drop(HALF_HOUR, 0) == 1800;
    hide RoundTrips, LocalDayInRange, Table, Drop;
    OtherDropLoses(HALF_HOUR, 0);
  }
}
