// Time zones: the transition search of mengSen/base/TimeZone.cpp and the
// conversions between instants and local broken-down time built on it.
module TimeZone {
  import opened Calendar
  import opened UtcTime

  datatype Transition = Transition(gmttime: int, localtime: int, localtimeIdx: nat)

  datatype Localtime = Localtime(gmtOffset: int, isDst: bool, arrbIdx: nat)

  datatype Data = Data(transitions: seq<Transition>, localtimes: seq<Localtime>)

  /** Tables the code can index: a first type, and valid type indices. */
  predicate Indexable(data: Data) {
    && data.localtimes != []
    && forall i :: 0 <= i < |data.transitions| ==> data.transitions[i].localtimeIdx < |data.localtimes|
  }

  /** The column a comparison looks at: `Comp(true)` the GMT times, `Comp(false)` the local ones. */
  function Keys(transitions: seq<Transition>, compareGmt: bool): (keys: seq<int>)
    ensures |keys| == |transitions|
    ensures forall i :: 0 <= i < |keys| ==>
              keys[i] == if compareGmt then transitions[i].gmttime else transitions[i].localtime
  {
    seq(|transitions|, i requires 0 <= i < |transitions| =>
      if compareGmt then transitions[i].gmttime else transitions[i].localtime)
  }

  predicate Sorted(keys: seq<int>) {
    forall i, j :: 0 <= i < j < |keys| ==> keys[i] <= keys[j]
  }

  predicate StrictlyIncreasing(keys: seq<int>) {
    forall i, j :: 0 <= i < j < |keys| ==> keys[i] < keys[j]
  }

  // ---------------------------------------------------------------- the search

  /** The number of leading keys less than `key`. */
  function FirstNotBefore(keys: seq<int>, key: int): (r: nat)
    ensures r <= |keys|
    ensures forall i :: 0 <= i < r ==> keys[i] < key
    ensures r < |keys| ==> keys[r] >= key
  {
    if keys == [] || keys[0] >= key then 0 else 1 + FirstNotBefore(keys[1..], key)
  }

  lemma FirstNotBeforeUnique(keys: seq<int>, key: int, r: nat)
    requires r <= |keys|
    requires forall i :: 0 <= i < r ==> keys[i] < key
    requires r < |keys| ==> keys[r] >= key
    ensures FirstNotBefore(keys, key) == r
  {
  }

  /** std::lower_bound. */
  method LowerBound(keys: seq<int>, key: int) returns (first: nat)
    requires Sorted(keys)
    ensures first == FirstNotBefore(keys, key)
  {
    first := 0;
    var len: nat := |keys|;
    while len > 0
      invariant first + len <= |keys|
      invariant forall i :: 0 <= i < first ==> keys[i] < key
      invariant forall i :: first + len <= i < |keys| ==> keys[i] >= key
    {
      var half := len / 2;
      var middle := first + half;
      if keys[middle] < key {
        first := middle + 1;
        len := len - half - 1;
      } else {
        len := half;
      }
    }
    FirstNotBeforeUnique(keys, key, first);
  }

  /** The transition the code settles on, or -1 for "before the first". */
  function FoundTransition(keys: seq<int>, key: int): (i: int)
    ensures -1 <= i < |keys|
  {
    if keys == [] || key < keys[0] then -1
    else
      var r := FirstNotBefore(keys, key);
      if r < |keys| && keys[r] == key then r else r - 1
  }

  /** Transition `i` is the last one whose key is not after `key` (-1: there is none). */
  predicate LastNotAfter(keys: seq<int>, key: int, i: int) {
    && -1 <= i < |keys|
    && (i >= 0 ==> keys[i] <= key)
    && (i + 1 < |keys| ==> key < keys[i + 1])
  }

  /** The search agrees with "the last transition not after" whenever the keys strictly increase. */
  lemma SearchFindsLastNotAfter(keys: seq<int>, key: int, i: int)
    requires StrictlyIncreasing(keys)
    ensures LastNotAfter(keys, key, i) <==> i == FoundTransition(keys, key)
  {
    var f := FoundTransition(keys, key);
    assert LastNotAfter(keys, key, f) by {
      var r := FirstNotBefore(keys, key);
      assert r < |keys| && keys[r] == key && r + 1 < |keys| ==> keys[r] < keys[r + 1];
    }
    if LastNotAfter(keys, key, i) {
      LastNotAfterUnique(keys, key, i, f);
      LastNotAfterUnique(keys, key, f, i);
    }
  }

  lemma LastNotAfterUnique(keys: seq<int>, key: int, i: int, j: int)
    requires StrictlyIncreasing(keys)
    requires LastNotAfter(keys, key, i) && LastNotAfter(keys, key, j)
    ensures i <= j
  {
  }

  function TypeOf(data: Data, i: int): Localtime
    requires Indexable(data) && -1 <= i < |data.transitions|
  {
    if i < 0 then data.localtimes[0] else data.localtimes[data.transitions[i].localtimeIdx]
  }

  function LocaltimeFor(data: Data, key: int, compareGmt: bool): Localtime
    requires Indexable(data)
  {
    TypeOf(data, FoundTransition(Keys(data.transitions, compareGmt), key))
  }

  lemma LocaltimeForIs(data: Data, key: int, compareGmt: bool)
    requires Indexable(data)
    ensures LocaltimeFor(data, key, compareGmt) == TypeOf(data, FoundTransition(Keys(data.transitions, compareGmt), key))
  {
  }

  /** The type found is that of the last transition not after the key, or the first type if there is none. */
  lemma GoverningType(data: Data, key: int, compareGmt: bool, i: int)
    requires Indexable(data) && StrictlyIncreasing(Keys(data.transitions, compareGmt))
    requires LastNotAfter(Keys(data.transitions, compareGmt), key, i)
    ensures -1 <= i < |data.transitions|
    ensures LocaltimeFor(data, key, compareGmt) ==
            if i == -1 then data.localtimes[0] else data.localtimes[data.transitions[i].localtimeIdx]
  {
    hide StrictlyIncreasing, FoundTransition;
    SearchFindsLastNotAfter(Keys(data.transitions, compareGmt), key, i);
  }

  method FindLocaltime(data: Data, key: int, compareGmt: bool) returns (local: Localtime)
    requires Indexable(data) && Sorted(Keys(data.transitions, compareGmt))
    ensures local == LocaltimeFor(data, key, compareGmt)
    ensures forall i :: StrictlyIncreasing(Keys(data.transitions, compareGmt))
                        && LastNotAfter(Keys(data.transitions, compareGmt), key, i) ==>
              local == if i == -1 then data.localtimes[0] else data.localtimes[data.transitions[i].localtimeIdx]
  {
    hide StrictlyIncreasing, LastNotAfter, LocaltimeFor;
    forall i | StrictlyIncreasing(Keys(data.transitions, compareGmt))
               && LastNotAfter(Keys(data.transitions, compareGmt), key, i)
      ensures -1 <= i < |data.transitions|
      ensures LocaltimeFor(data, key, compareGmt) ==
              if i == -1 then data.localtimes[0] else data.localtimes[data.transitions[i].localtimeIdx]
    {
      GoverningType(data, key, compareGmt, i);
    }
    assert LocaltimeFor(data, key, compareGmt) == TypeOf(data, FoundTransition(Keys(data.transitions, compareGmt), key)) by {
      LocaltimeForIs(data, key, compareGmt);
    }
    var keys := Keys(data.transitions, compareGmt);
    if |keys| == 0 || key < keys[0] {
      local := data.localtimes[0];
    } else {
      var transI := LowerBound(keys, key);
      if transI < |keys| {
        if key != keys[transI] {
          assert transI != 0;
          transI := transI - 1;
        }
        local := data.localtimes[data.transitions[transI].localtimeIdx];
      } else {
        local := data.localtimes[data.transitions[|data.transitions| - 1].localtimeIdx];
      }
    }
  }

  // --------------------------------------------------------------- conversions

  function LocalTm(data: Data, seconds: int): Tm
    requires Indexable(data)
  {
    var local := LocaltimeFor(data, seconds, true);
    UtcTm(seconds + local.gmtOffset, true).(isdst := if local.isDst then 1 else 0, gmtoff := local.gmtOffset)
  }

  method ToLocalTime(data: Data, seconds: int) returns (localTime: Tm)
    requires Indexable(data) && Sorted(Keys(data.transitions, true))
    requires NoOverflow(seconds + LocaltimeFor(data, seconds, true).gmtOffset)
    ensures localTime == LocalTm(data, seconds)
    ensures var local := LocaltimeFor(data, seconds, true);
            && SameMoment(localTime, UtcTm(seconds + local.gmtOffset, true))
            && (localTime.isdst != 0 <==> local.isDst) && localTime.gmtoff == local.gmtOffset
  {
    hide UtcTm, NoOverflow, LocaltimeFor, Sorted;
    var local := FindLocaltime(data, seconds, true);
    var localSeconds := seconds + local.gmtOffset;
    localTime := ToUtcTime(localSeconds, true);
    localTime := localTime.(isdst := if local.isDst then 1 else 0);
    localTime := localTime.(gmtoff := local.gmtOffset);
  }

  /** The result of fromLocalTime: the DST half of a repeated hour is told apart by `tm_isdst`. */
  function InstantOf(data: Data, localTm: Tm): int
    requires Indexable(data)
  {
    var seconds := FromUtcTm(localTm);
    var local := LocaltimeFor(data, seconds, false);
    var tryTm := LocalTm(data, seconds - local.gmtOffset);
    var shifted := localTm.isdst != 0 && tryTm.isdst == 0 && tryTm.hour == localTm.hour && tryTm.min == localTm.min;
    (if shifted then seconds - 3600 else seconds) - local.gmtOffset
  }

  /** The instant fromLocalTime re-renders when `tm_isdst` is set. */
  function TryInstant(data: Data, localTm: Tm): int
    requires Indexable(data)
  {
    var seconds := FromUtcTm(localTm);
    seconds - LocaltimeFor(data, seconds, false).gmtOffset
  }

  method FromLocalTime(data: Data, localTm: Tm) returns (t: int)
    requires Indexable(data)
    requires Sorted(Keys(data.transitions, true)) && Sorted(Keys(data.transitions, false))
    requires localTm.isdst != 0 ==>
               var try := TryInstant(data, localTm);
               NoOverflow(try + LocaltimeFor(data, try, true).gmtOffset)
    ensures t == InstantOf(data, localTm)
  {
    hide NoOverflow, UtcTm, FromUtcTm;
    var tmp := localTm;
    var seconds := FromUtcTime(tmp);
    var local := FindLocaltime(data, seconds, false);
    if localTm.isdst != 0 {
      var tryTm := ToLocalTime(data, seconds - local.gmtOffset);
      if tryTm.isdst == 0 && tryTm.hour == localTm.hour && tryTm.min == localTm.min {
        seconds := seconds - 3600;
      }
    }
    return seconds - local.gmtOffset;
  }

  // ---------------------------------------------------------------- properties

  predicate HourlyType(local: Localtime, standard: int) {
    local.gmtOffset == if local.isDst then standard + 3600 else standard
  }

  /**
   * One-hour daylight saving: GMT times in increasing order, local times as
   * readTimeZoneFile derives them and in the order lower_bound needs, and every type at
   * the standard offset, plus an hour exactly when it is DST.
   */
  predicate HourlyDst(data: Data, standard: int)
    requires Indexable(data)
  {
    && StrictlyIncreasing(Keys(data.transitions, true)) && Sorted(Keys(data.transitions, false))
    && (forall i :: 0 <= i < |data.transitions| ==>
          data.transitions[i].localtime ==
          data.transitions[i].gmttime + data.localtimes[data.transitions[i].localtimeIdx].gmtOffset)
    && HourlyType(data.localtimes[0], standard)
    && (forall i :: 0 <= i < |data.transitions| ==>
          HourlyType(data.localtimes[data.transitions[i].localtimeIdx], standard))
  }

  /** Transition k ends daylight saving. */
  predicate EndsDst(data: Data, k: int)
    requires Indexable(data) && 0 <= k < |data.transitions|
  {
    TypeOf(data, k - 1).isDst && !TypeOf(data, k).isDst
  }

  /** Daylight saving that a transition begins does not end within an hour of the transition before. */
  predicate LongDst(data: Data)
    requires Indexable(data)
  {
    forall k :: 0 < k < |data.transitions| && EndsDst(data, k) ==>
      data.transitions[k].gmttime - data.transitions[k - 1].gmttime > 3600
  }

  /** Once ended, daylight saving does not begin again before the repeated hour is over. */
  predicate LongStandard(data: Data)
    requires Indexable(data)
  {
    forall k, j :: 0 <= k < j < |data.transitions| && EndsDst(data, k) && TypeOf(data, j).isDst ==>
      data.transitions[j].gmttime - data.transitions[k].gmttime >= 3600
  }

  lemma {:induction false} IncreasingFromSteps(keys: seq<int>, i: int, j: int)
    requires forall k :: 0 <= k < |keys| - 1 ==> keys[k] < keys[k + 1]
    requires 0 <= i < j < |keys|
    ensures keys[i] < keys[j]
    decreases j - i
  {
    if i + 1 < j {
      IncreasingFromSteps(keys, i, j - 1);
    }
  }

  /** The local times of such a table strictly increase exactly if no daylight saving is that short. */
  lemma LocalTimesIncrease(data: Data, standard: int)
    requires Indexable(data) && HourlyDst(data, standard)
    ensures StrictlyIncreasing(Keys(data.transitions, false)) <==> LongDst(data)
  {
    var gmt, local := Keys(data.transitions, true), Keys(data.transitions, false);
    forall k | 0 <= k < |gmt| - 1
      ensures local[k] < local[k + 1] <==> (EndsDst(data, k + 1) ==> gmt[k + 1] - gmt[k] > 3600)
    {
      assert gmt[k] < gmt[k + 1];
    }
    if LongDst(data) {
      forall i, j | 0 <= i < j < |gmt| ensures local[i] < local[j] {
        IncreasingFromSteps(local, i, j);
      }
    } else {
      var k :| 0 < k < |gmt| && EndsDst(data, k)
               && data.transitions[k].gmttime - data.transitions[k - 1].gmttime <= 3600;
      assert !(local[k - 1] < local[(k - 1) + 1]);
    }
  }

  /** Local time, to the second, at which the table's transition i happens. */
  function LocalKey(data: Data, standard: int, i: int): int
    requires Indexable(data) && 0 <= i < |data.transitions|
  {
    data.transitions[i].gmttime + if TypeOf(data, i).isDst then standard + 3600 else standard
  }

  lemma KeysAt(data: Data, standard: int, i: int)
    requires Indexable(data) && HourlyDst(data, standard) && 0 <= i < |data.transitions|
    ensures Keys(data.transitions, true)[i] == data.transitions[i].gmttime
    ensures Keys(data.transitions, false)[i] == LocalKey(data, standard, i)
  {
  }

  lemma OffsetAt(data: Data, standard: int, i: int)
    requires Indexable(data) && HourlyDst(data, standard) && -1 <= i < |data.transitions|
    ensures TypeOf(data, i).gmtOffset == if TypeOf(data, i).isDst then standard + 3600 else standard
  {
  }

  lemma Ordered(data: Data, standard: int, i: int, j: int)
    requires Indexable(data) && HourlyDst(data, standard) && 0 <= i < j < |data.transitions|
    ensures data.transitions[i].gmttime < data.transitions[j].gmttime
    ensures LocalKey(data, standard, i) <= LocalKey(data, standard, j)
  {
    hide LocalKey;
    KeysAt(data, standard, i);
    KeysAt(data, standard, j);
    assert Keys(data.transitions, true)[i] < Keys(data.transitions, true)[j];
    assert Keys(data.transitions, false)[i] <= Keys(data.transitions, false)[j];
  }

  /**
   * Shifting an instant into local time keeps its transition i, or moves on to a standard
   * transition f that then also governs one hour later.
   */
  lemma ShiftedInterval(data: Data, standard: int, t: int, i: int, f: int, g: int)
    requires Indexable(data) && HourlyDst(data, standard) && LongStandard(data)
    requires LastNotAfter(Keys(data.transitions, true), t, i)
    requires LastNotAfter(Keys(data.transitions, false), t + TypeOf(data, i).gmtOffset, f)
    requires LastNotAfter(Keys(data.transitions, true), t + 3600, g)
    requires StrictlyIncreasing(Keys(data.transitions, false))
    ensures f == i || (f == g && TypeOf(data, i).isDst && !TypeOf(data, f).isDst)
  {
    hide HourlyDst, TypeOf, Keys, Indexable, StrictlyIncreasing;
    OffsetAt(data, standard, i);
    Bracket(data, standard, t, i, true);
    Bracket(data, standard, t + TypeOf(data, i).gmtOffset, f, false);
    Bracket(data, standard, t + 3600, g, true);
    if f < i {
      NotLater(data, standard, f + 1, i);
    } else if f > i {
      NotLater(data, standard, i + 1, f);
      assert EndsDst(data, i + 1);
      if g < f {
        NotLater(data, standard, g + 1, f);
      } else if g > f {
        NotLater(data, standard, f + 1, g);
      }
    }
  }

  /** The last transition not after a key, in terms of the table. */
  lemma Bracket(data: Data, standard: int, key: int, i: int, compareGmt: bool)
    requires Indexable(data) && HourlyDst(data, standard) && LastNotAfter(Keys(data.transitions, compareGmt), key, i)
    ensures -1 <= i < |data.transitions|
    ensures i >= 0 ==> key >= if compareGmt then data.transitions[i].gmttime else LocalKey(data, standard, i)
    ensures i + 1 < |data.transitions| ==>
              key < if compareGmt then data.transitions[i + 1].gmttime else LocalKey(data, standard, i + 1)
  {
    hide LocalKey, HourlyDst;
    if i >= 0 {
      KeysAt(data, standard, i);
    }
    if i + 1 < |data.transitions| {
      KeysAt(data, standard, i + 1);
    }
  }

  lemma NotLater(data: Data, standard: int, i: int, j: int)
    requires Indexable(data) && HourlyDst(data, standard) && 0 <= i <= j < |data.transitions|
    ensures data.transitions[i].gmttime <= data.transitions[j].gmttime
    ensures LocalKey(data, standard, i) <= LocalKey(data, standard, j)
  {
    hide LocalKey, HourlyDst;
    if i < j {
      Ordered(data, standard, i, j);
    }
  }

  /**
   * Looking up the local rendering of `t` finds the type that governs `t`, or, in the
   * DST half of a repeated hour, the standard type that governs one hour later.
   */
  lemma LocalSearch(data: Data, standard: int, t: int)
    requires Indexable(data) && HourlyDst(data, standard) && LongDst(data) && LongStandard(data)
    ensures var local := LocaltimeFor(data, t, true);
            var found := LocaltimeFor(data, t + local.gmtOffset, false);
            || found == local
            || (local.isDst && !found.isDst && LocaltimeFor(data, t + 3600, true) == found)
  {
    hide LongDst, LongStandard, StrictlyIncreasing, LastNotAfter, FoundTransition, Keys, TypeOf, Indexable;
    var gmt, local := Keys(data.transitions, true), Keys(data.transitions, false);
    LocalTimesIncrease(data, standard);
    var i, g := FoundTransition(gmt, t), FoundTransition(gmt, t + 3600);
    var seconds := t + TypeOf(data, i).gmtOffset;
    var f := FoundTransition(local, seconds);
    SearchFindsLastNotAfter(gmt, t, i);
    SearchFindsLastNotAfter(gmt, t + 3600, g);
    SearchFindsLastNotAfter(local, seconds, f);
    ShiftedInterval(data, standard, t, i, f, g);
  }

  /** The offset of a type follows from its flag. */
  lemma OffsetOf(data: Data, standard: int, key: int, compareGmt: bool)
    requires Indexable(data) && HourlyDst(data, standard)
    ensures var local := LocaltimeFor(data, key, compareGmt);
            local.gmtOffset == if local.isDst then standard + 3600 else standard
  {
  }

  /** fromLocalTime inverts toLocalTime at every instant, both halves of a repeated hour included. */
  lemma LocalRoundTrip(data: Data, standard: int, t: int)
    requires Indexable(data) && HourlyDst(data, standard) && LongDst(data) && LongStandard(data)
    requires Supported(t + LocaltimeFor(data, t, true).gmtOffset)
    ensures InstantOf(data, LocalTm(data, t)) == t
  {
    hide HourlyDst, LongDst, LongStandard, UtcTm, Supported, LocaltimeFor, FromUtcTm;
    var local := LocaltimeFor(data, t, true);
    var seconds := t + local.gmtOffset;
    var found := LocaltimeFor(data, seconds, false);
    LocalSearch(data, standard, t);
    OffsetOf(data, standard, t, true);
    OffsetOf(data, standard, seconds, false);
    UtcRoundTrip(seconds, true);
    LocalSecondsOf(data, t);
    if found != local {
      assert seconds - found.gmtOffset == t + 3600;
    }
  }

  /** The local seconds are recovered from the fields, whatever the DST flag and offset say. */
  lemma LocalSecondsOf(data: Data, t: int)
    requires Indexable(data)
    ensures FromUtcTm(LocalTm(data, t)) == FromUtcTm(UtcTm(t + LocaltimeFor(data, t, true).gmtOffset, true))
  {
    hide UtcTm, LocaltimeFor, JulianDayNumber;
  }

  /** The fields of an instant, read as UTC, are off by exactly the offset they carry. */
  lemma FieldsCarryOffset(data: Data, t: int)
    requires Indexable(data) && Supported(t + LocaltimeFor(data, t, true).gmtOffset)
    ensures FromUtcTm(LocalTm(data, t)) - LocalTm(data, t).gmtoff == t
  {
    hide UtcTm, Supported, LocaltimeFor, FromUtcTm;
    LocalSecondsOf(data, t);
    UtcRoundTrip(t + LocaltimeFor(data, t, true).gmtOffset, true);
  }

  /** A local time that daylight saving skips when it begins. */
  predicate Skipped(data: Data, standard: int, seconds: int)
    requires Indexable(data)
  {
    !LocaltimeFor(data, seconds, false).isDst && LocaltimeFor(data, seconds - standard, true).isDst
  }

  /**
   * What tm_isdst does to any calendar fields, rendered from an instant or not: cleared, it
   * leaves the offset to the local search; set, positive or negative, it makes the reading
   * daylight saving time, even in winter, except for a time that was skipped.
   */
  lemma FlagDecides(data: Data, standard: int, tm: Tm)
    requires Indexable(data) && HourlyDst(data, standard) && LongDst(data)
    requires CalendarFields(tm) && InRange(DateOf(tm))
    ensures var seconds := FromUtcTm(tm);
            && (tm.isdst == 0 ==> InstantOf(data, tm) == seconds - LocaltimeFor(data, seconds, false).gmtOffset)
            && (tm.isdst != 0 ==>
                  InstantOf(data, tm) == seconds - if Skipped(data, standard, seconds) then standard else standard + 3600)
  {
    hide HourlyDst, LongDst, LocaltimeFor, FromUtcTm, CalendarFields, InRange, JulianDayOf, SecondOfDay, ToYearMonthDay,
         JulianDayNumber, WeekDay;
    var seconds := FromUtcTm(tm);
    var found := LocaltimeFor(data, seconds, false);
    OnlyInstant(tm);
    OffsetOf(data, standard, seconds, false);
    OffsetOf(data, standard, seconds - standard, true);
    if found.isDst {
      DstGoverns(data, standard, seconds);
    }
  }

  /** A local time found in daylight saving lies in it when taken back by its offset. */
  lemma DstGoverns(data: Data, standard: int, seconds: int)
    requires Indexable(data) && HourlyDst(data, standard) && LongDst(data)
    requires LocaltimeFor(data, seconds, false).isDst
    ensures LocaltimeFor(data, seconds - (standard + 3600), true).isDst
  {
    hide HourlyDst, LongDst, StrictlyIncreasing, LastNotAfter, FoundTransition, Keys, TypeOf, Indexable;
    var gmt, local, t := Keys(data.transitions, true), Keys(data.transitions, false), seconds - (standard + 3600);
    LocalTimesIncrease(data, standard);
    LocalSorted(data, standard);
    var f, g := FoundTransition(local, seconds), FoundTransition(gmt, t);
    SearchFindsLastNotAfter(local, seconds, f);
    SearchFindsLastNotAfter(gmt, t, g);
    Bracket(data, standard, seconds, f, false);
    Bracket(data, standard, t, g, true);
    if g < f {
      NotLater(data, standard, g + 1, f);
    } else if g > f {
      NotLater(data, standard, f + 1, g);
    }
  }

  // ------------------------------------------------------------- the exact condition

  /** What fromLocalTime makes of the fields of t, given the type its search finds for them. */
  lemma InstantFound(data: Data, t: int, found: Localtime)
    requires Indexable(data)
    requires var local := LocaltimeFor(data, t, true);
             && Supported(t + local.gmtOffset)
             && LocaltimeFor(data, t + local.gmtOffset, false) == found
             && (!local.isDst || LocaltimeFor(data, t + local.gmtOffset - found.gmtOffset, true).isDst)
    ensures InstantOf(data, LocalTm(data, t)) == t + LocaltimeFor(data, t, true).gmtOffset - found.gmtOffset
  {
    hide UtcTm, Supported, LocaltimeFor, FromUtcTm;
    UtcRoundTrip(t + LocaltimeFor(data, t, true).gmtOffset, true);
    LocalSecondsOf(data, t);
  }

  /** The search of a key that lies between two neighbours. */
  lemma FoundBetween(keys: seq<int>, key: int, i: int)
    requires Sorted(keys) && 0 <= i < |keys| && keys[i] < key && (i + 1 < |keys| ==> key < keys[i + 1])
    ensures FoundTransition(keys, key) == i
  {
    FirstNotBeforeUnique(keys, key, i + 1);
  }

  /** The search of a key that is there settles on its first occurrence. */
  lemma FoundOnFirst(keys: seq<int>, key: int, i: int)
    requires Sorted(keys) && 0 <= i < |keys| && keys[i] == key && (i > 0 ==> keys[i - 1] < key)
    ensures FoundTransition(keys, key) == i
  {
    FirstNotBeforeUnique(keys, key, i);
  }

  /**
   * Daylight saving of exactly an hour (less would put the local times out of order): the
   * instant at which it ends is sent back an hour.
   */
  lemma ShortDstFails(data: Data, standard: int, k: int)
    requires Indexable(data) && HourlyDst(data, standard) && 0 < k < |data.transitions| && EndsDst(data, k)
    requires data.transitions[k].gmttime - data.transitions[k - 1].gmttime <= 3600
    requires Supported(data.transitions[k].gmttime + standard)
    ensures var t := data.transitions[k].gmttime;
            LocaltimeFor(data, t, true).gmtOffset == standard && InstantOf(data, LocalTm(data, t)) == t - 3600
  {
    hide Supported, InstantOf, LocalTm, HourlyDst, TypeOf, Keys, FoundTransition;
    var local, t := Keys(data.transitions, false), data.transitions[k].gmttime;
    Ordered(data, standard, k - 1, k);
    if k + 1 < |data.transitions| {
      Ordered(data, standard, k, k + 1);
    }
    FoundGmt(data, standard, t, k);
    OffsetAt(data, standard, k - 1);
    OffsetAt(data, standard, k);
    KeysAt(data, standard, k - 1);
    KeysAt(data, standard, k);
    if k > 1 {
      KeysAt(data, standard, k - 2);
      Ordered(data, standard, k - 2, k - 1);
    }
    LocalSorted(data, standard);
    FoundOnFirst(local, t + standard, k - 1);
    InstantFound(data, t, TypeOf(data, k - 1));
  }

  lemma LocalSorted(data: Data, standard: int)
    requires Indexable(data) && HourlyDst(data, standard)
    ensures StrictlyIncreasing(Keys(data.transitions, true)) && Sorted(Keys(data.transitions, false))
  {
  }

  /** The GMT search, in terms of the table. */
  lemma FoundGmt(data: Data, standard: int, t: int, i: int)
    requires Indexable(data) && HourlyDst(data, standard) && -1 <= i < |data.transitions|
    requires i >= 0 ==> data.transitions[i].gmttime <= t
    requires i + 1 < |data.transitions| ==> t < data.transitions[i + 1].gmttime
    ensures FoundTransition(Keys(data.transitions, true), t) == i
  {
    hide FoundTransition, StrictlyIncreasing, TypeOf;
    LocalSorted(data, standard);
    SearchFindsLastNotAfter(Keys(data.transitions, true), t, i);
  }

  lemma {:induction false} FirstDst(data: Data, k: int, j: int) returns (first: int)
    requires Indexable(data) && 0 <= k < j < |data.transitions| && !TypeOf(data, k).isDst && TypeOf(data, j).isDst
    ensures k < first <= j && TypeOf(data, first).isDst && !TypeOf(data, first - 1).isDst
    decreases j
  {
    if TypeOf(data, j - 1).isDst {
      first := FirstDst(data, k, j - 1);
    } else {
      first := j;
    }
  }

  /** Daylight saving that begins again within the hour after it ended: an instant is sent on an hour. */
  lemma ShortStandardFails(data: Data, standard: int, k: int, j: int)
    requires Indexable(data) && HourlyDst(data, standard) && 0 <= k < j < |data.transitions|
    requires EndsDst(data, k) && TypeOf(data, j).isDst && !TypeOf(data, j - 1).isDst
    requires data.transitions[j].gmttime - data.transitions[k].gmttime < 3600
    requires Supported(data.transitions[j].gmttime + standard)
    ensures var t := data.transitions[j].gmttime - 3600;
            LocaltimeFor(data, t, true).gmtOffset == standard + 3600 && InstantOf(data, LocalTm(data, t)) == t + 3600
  {
    hide Supported, InstantOf, LocalTm, HourlyDst, TypeOf, Keys, FoundTransition;
    var local, t := Keys(data.transitions, false), data.transitions[j].gmttime - 3600;
    if k > 0 {
      Ordered(data, standard, k - 1, k);
    }
    Ordered(data, standard, k, j);
    FoundGmt(data, standard, t, k - 1);
    if j + 1 < |data.transitions| {
      Ordered(data, standard, j, j + 1);
    }
    FoundGmt(data, standard, t + 3600, j);
    Ordered(data, standard, j - 1, j);
    OffsetAt(data, standard, k - 1);
    OffsetAt(data, standard, j - 1);
    KeysAt(data, standard, j - 1);
    KeysAt(data, standard, j);
    LocalSorted(data, standard);
    FoundBetween(local, t + 3600 + standard, j - 1);
    InstantFound(data, t, TypeOf(data, j - 1));
  }

  predicate RoundTrips(data: Data, t: int)
    requires Indexable(data)
  {
    Supported(t + LocaltimeFor(data, t, true).gmtOffset) ==> InstantOf(data, LocalTm(data, t)) == t
  }

  /**
   * For a table whose transitions the calendar reaches, fromLocalTime inverts toLocalTime
   * at every supported instant exactly if no daylight saving and no standard time between
   * two of them is too short.
   */
  lemma LocalRoundTripExactly(data: Data, standard: int)
    requires Indexable(data) && HourlyDst(data, standard)
    requires forall i :: 0 <= i < |data.transitions| ==> Supported(data.transitions[i].gmttime + standard)
    ensures (forall t :: RoundTrips(data, t)) <==> LongDst(data) && LongStandard(data)
  {
    hide HourlyDst, Supported, InstantOf, LocalTm, LocaltimeFor, LongDst, LongStandard;
    if LongDst(data) && LongStandard(data) {
      forall t ensures RoundTrips(data, t) {
        if Supported(t + LocaltimeFor(data, t, true).gmtOffset) {
          LocalRoundTrip(data, standard, t);
        }
      }
    } else {
      var t := SomeFailure(data, standard);
      assert !RoundTrips(data, t);
    }
  }

  lemma SomeFailure(data: Data, standard: int) returns (t: int)
    requires Indexable(data) && HourlyDst(data, standard) && !(LongDst(data) && LongStandard(data))
    requires forall i :: 0 <= i < |data.transitions| ==> Supported(data.transitions[i].gmttime + standard)
    ensures !RoundTrips(data, t)
  {
    hide HourlyDst, Supported, InstantOf, LocalTm, LocaltimeFor, TypeOf;
    if !LongDst(data) {
      var k :| 0 < k < |data.transitions| && EndsDst(data, k)
               && data.transitions[k].gmttime - data.transitions[k - 1].gmttime <= 3600;
      ShortDstFails(data, standard, k);
      t := data.transitions[k].gmttime;
    } else {
      var k, j :| 0 <= k < j < |data.transitions| && EndsDst(data, k) && TypeOf(data, j).isDst
                  && data.transitions[j].gmttime - data.transitions[k].gmttime < 3600;
      var first := FirstDst(data, k, j);
      NotLater(data, standard, first, j);
      ShortStandardFails(data, standard, k, first);
      t := data.transitions[first].gmttime - 3600;
    }
  }

  /** Transitions more than an hour apart, of whatever kind, are far enough apart. */
  lemma HourApartSuffices(data: Data, standard: int)
    requires Indexable(data) && HourlyDst(data, standard)
    requires forall i :: 0 <= i < |data.transitions| - 1 ==>
               data.transitions[i].gmttime + 3600 < data.transitions[i + 1].gmttime
    ensures LongDst(data) && LongStandard(data)
  {
    forall k, j | 0 <= k < j < |data.transitions|
      ensures data.transitions[j].gmttime - data.transitions[k].gmttime > 3600
    {
      NotLater(data, standard, k + 1, j);
    }
  }

  /** A fixed zone has no transitions; its one type may even be flagged DST. */
  lemma FixedZoneRoundTrip(eastOfUtc: int, isDst: bool, t: int)
    requires Supported(t + eastOfUtc)
    ensures var zone := Data([], [Localtime(eastOfUtc, isDst, 0)]);
            InstantOf(zone, LocalTm(zone, t)) == t
  {
    hide Supported, UtcTm, FromUtcTm;
    var zone := Data([], [Localtime(eastOfUtc, isDst, 0)]);
    assert HourlyDst(zone, if isDst then eastOfUtc - 3600 else eastOfUtc);
    LocalRoundTrip(zone, if isDst then eastOfUtc - 3600 else eastOfUtc, t);
  }
}
