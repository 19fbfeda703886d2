/**
 * Placement of the proportional RU packer: the corrected classes are laid out
 * left to right on the channel with a cursor counted in 26-tone units. Units
 * that only a 26-tone RU can use (the centre unit 5 of a 20 MHz channel, and
 * units 14, 19, 24 and 33 of wider channels) are stepped over before a wider
 * RU is placed.
 */
module RuPlacement {
  import opened Wrappers
  import opened HeRu
  import opened RuPacker

  /** Units the cursor steps over before a wider RU is placed. */
  predicate Skipped(w: Width, u: nat)
  {
    match w
    case W20 => u == 5
    case W40 => u == 5 || u == 14
    case W80 => u == 5 || u == 14 || u == 19 || u == 24 || u == 33
  }

  function SkipUnit(w: Width, cursor: nat): nat
  {
    if Skipped(w, cursor) then cursor + 1 else cursor
  }

  /**
   * For each class between 52 tones and the whole channel, the cursor ranges
   * the code maps to the 1st, 2nd, ... RU of that class
   * (dlulratio_scheduler.cpp:291-306, 477-519, 733-777).
   */
  function Ranges(w: Width, c: ToneClass): seq<(nat, nat)>
  {
    match (w, c)
    case (W20, Ru106) => [(1, 4), (6, 9)]
    case (W20, Ru52) => [(1, 2), (3, 4), (6, 7), (8, 9)]
    case (W40, Ru242) => [(1, 9), (10, 18)]
    case (W40, Ru106) => [(1, 4), (6, 9), (10, 13), (15, 18)]
    case (W40, Ru52) => [(1, 2), (3, 4), (6, 7), (8, 9), (10, 11), (12, 13), (15, 16), (17, 18)]
    case (W80, Ru484) => [(1, 18), (20, 37)]
    case (W80, Ru242) => [(1, 9), (10, 18), (20, 28), (29, 37)]
    case (W80, Ru106) => [(1, 4), (6, 9), (10, 13), (15, 18), (20, 23), (25, 28), (29, 32), (34, 37)]
    case (W80, Ru52) => Lower80Ru52 + Upper80Ru52
    case _ => []
  }

  /** The 52-tone RUs of the lower and of the upper 40 MHz of an 80 MHz channel. */
  const Lower80Ru52: seq<(nat, nat)> := [(1, 2), (3, 4), (6, 7), (8, 9), (10, 11), (12, 13), (15, 16), (17, 18)]
  const Upper80Ru52: seq<(nat, nat)> := [(20, 21), (22, 23), (25, 26), (27, 28), (29, 30), (31, 32), (34, 35), (36, 37)]

  /** 1-based position of the first range holding the cursor, as the code's chain of range tests computes it. */
  function RangeIndex(ranges: seq<(nat, nat)>, cursor: nat): (r: Option<nat>)
    ensures r.Some? ==> 1 <= r.value <= |ranges|
  {
    if ranges == [] then None
    else if ranges[0].0 <= cursor <= ranges[0].1 then Some(1)
    else match RangeIndex(ranges[1..], cursor)
      case None => None
      case Some(k) => Some(k + 1)
  }

  /**
   * The index names the first range holding the cursor, and there is none
   * exactly when no range holds it.
   */
  lemma {:induction false} RangeIndexFirst(ranges: seq<(nat, nat)>, cursor: nat)
    ensures var r := RangeIndex(ranges, cursor);
      (r.Some? ==> ranges[r.value - 1].0 <= cursor <= ranges[r.value - 1].1) &&
      (r.Some? ==> forall j :: 0 <= j < r.value - 1 ==> !(ranges[j].0 <= cursor <= ranges[j].1)) &&
      (r.None? ==> forall j :: 0 <= j < |ranges| ==> !(ranges[j].0 <= cursor <= ranges[j].1))
  {
    if ranges != [] {
      RangeIndexFirst(ranges[1..], cursor);
      var r := RangeIndex(ranges, cursor);
      if r.None? || r.value > 1 {
        forall j | 1 <= j < |ranges|
          ensures ranges[j] == ranges[1..][j - 1]
        {
        }
      }
    }
  }

  /** The RU index the code computes; a cursor in no range is used as it is. */
  function IndexAt(w: Width, c: ToneClass, cursor: nat): nat
  {
    match RangeIndex(Ranges(w, c), cursor)
    case Some(k) => k
    case None => cursor
  }

  /** An RU index the tone plan has for that class and channel. */
  predicate ValidIndex(w: Width, r: Ru)
  {
    1 <= r.index <= NumRus(w, r.toneClass)
  }

  /** The allocation places the leading entries of the class array, each at a valid index. */
  predicate PlacesPrefix(w: Width, ruArray: seq<ToneClass>, allocation: seq<Ru>)
  {
    |allocation| <= |ruArray| &&
    (forall k :: 0 <= k < |allocation| ==> allocation[k].toneClass == ruArray[k]) &&
    (forall k :: 0 <= k < |allocation| ==> ValidIndex(w, allocation[k]))
  }

  lemma PlacesAppend(w: Width, ruArray: seq<ToneClass>, allocation: seq<Ru>, r: Ru)
    requires PlacesPrefix(w, ruArray, allocation) && |allocation| < |ruArray|
    requires r.toneClass == ruArray[|allocation|] && ValidIndex(w, r)
    ensures PlacesPrefix(w, ruArray, allocation + [r])
  {
  }

  /**
   * The ranges tile the units from `from` on, left to right: each range starts
   * right after the previous one or right after a skipped unit, and no range
   * ends on a skipped unit.
   */
  predicate Tiles(w: Width, ranges: seq<(nat, nat)>, from: nat)
  {
    ranges == [] ||
    ((ranges[0].0 == from || (Skipped(w, from) && ranges[0].0 == from + 1)) &&
     ranges[0].0 <= ranges[0].1 && !Skipped(w, ranges[0].1) &&
     Tiles(w, ranges[1..], ranges[0].1 + 1))
  }

  lemma {:induction false} TiledAt(w: Width, ranges: seq<(nat, nat)>, from: nat, x: nat)
    requires Tiles(w, ranges, from) && ranges != [] && from <= x <= ranges[|ranges| - 1].1
    ensures RangeIndex(ranges, SkipUnit(w, x)).Some?
  {
    if x > ranges[0].1 {
      assert ranges[1..] != [];
      assert ranges[1..][|ranges[1..]| - 1] == ranges[|ranges| - 1];
      TiledAt(w, ranges[1..], ranges[0].1 + 1, x);
    }
  }

  /** The last cursor position from which a class-c RU still fits in the channel. */
  function LastStart(w: Width, c: ToneClass): int
  {
    Budget(w) + 1 - Cost(c)
  }

  /**
   * Whenever the code's "does it still fit" guard lets a wider RU through, the
   * cursor, after stepping over a skipped unit, lies in one of the ranges, so
   * the computed index is a valid RU index and the cursor never falls through
   * (the fall-through branch of the code is never taken).
   */
  lemma {:induction false} RangesCover(w: Width, c: ToneClass, cursor: nat)
    requires InWidth(w, c) && c != Ru26 && c != FullClass(w)
    requires 1 <= cursor <= LastStart(w, c)
    ensures RangeIndex(Ranges(w, c), SkipUnit(w, cursor)).Some?
    ensures ValidIndex(w, Ru(c, IndexAt(w, c, SkipUnit(w, cursor))))
    ensures SkipUnit(w, cursor) <= LastStart(w, c)
  {
    TableTiles(w, c);
    TiledAt(w, Ranges(w, c), 1, cursor);
  }

  /** Each table tiles its channel from unit 1 up to at least the last start. */
  lemma TableTiles(w: Width, c: ToneClass)
    requires InWidth(w, c) && c != Ru26 && c != FullClass(w)
    ensures Tiles(w, Ranges(w, c), 1)
    ensures Ranges(w, c) != [] && |Ranges(w, c)| == NumRus(w, c)
    ensures LastStart(w, c) <= Ranges(w, c)[|Ranges(w, c)| - 1].1
    ensures !Skipped(w, LastStart(w, c))
  {
    match w {
      case W20 => Tiles20(); Table20(c);
      case W40 => Tiles40(); Table40(c);
      case W80 => Tiles80(); Table80(c);
    }
  }

  lemma Table20(c: ToneClass)
    requires InWidth(W20, c) && c != Ru26 && c != Ru242
    ensures Ranges(W20, c) != [] && |Ranges(W20, c)| == NumRus(W20, c)
    ensures LastStart(W20, c) <= Ranges(W20, c)[|Ranges(W20, c)| - 1].1 && !Skipped(W20, LastStart(W20, c))
  {
  }

  lemma Table40(c: ToneClass)
    requires InWidth(W40, c) && c != Ru26 && c != Ru484
    ensures Ranges(W40, c) != [] && |Ranges(W40, c)| == NumRus(W40, c)
    ensures LastStart(W40, c) <= Ranges(W40, c)[|Ranges(W40, c)| - 1].1 && !Skipped(W40, LastStart(W40, c))
  {
  }

  lemma Table80(c: ToneClass)
    requires InWidth(W80, c) && c != Ru26 && c != Ru996
    ensures Ranges(W80, c) != [] && |Ranges(W80, c)| == NumRus(W80, c)
    ensures LastStart(W80, c) <= Ranges(W80, c)[|Ranges(W80, c)| - 1].1 && !Skipped(W80, LastStart(W80, c))
  {
  }

  lemma Tiles20()
    ensures Tiles(W20, Ranges(W20, Ru106), 1) && Tiles(W20, Ranges(W20, Ru52), 1)
  {
  }

  lemma Tiles40()
    ensures Tiles(W40, Ranges(W40, Ru242), 1) && Tiles(W40, Ranges(W40, Ru106), 1)
    ensures Tiles(W40, Ranges(W40, Ru52), 1)
  {
  }

  lemma Tiles80()
    ensures Tiles(W80, Ranges(W80, Ru484), 1) && Tiles(W80, Ranges(W80, Ru242), 1)
    ensures Tiles(W80, Ranges(W80, Ru106), 1) && Tiles(W80, Ranges(W80, Ru52), 1)
  {
    Tiles80Wide();
    Tiles80Ru106();
    Tiles80Ru52();
  }

  lemma Tiles80Wide()
    ensures Tiles(W80, Ranges(W80, Ru484), 1) && Tiles(W80, Ranges(W80, Ru242), 1)
  {
  }

  lemma Tiles80Ru106()
    ensures Tiles(W80, Ranges(W80, Ru106), 1)
  {
  }

  lemma Tiles80Ru52()
    ensures Tiles(W80, Ranges(W80, Ru52), 1)
  {
    Tiles80Ru52Lower();
    Tiles80Ru52Upper();
    TilesAppend(W80, Lower80Ru52, Upper80Ru52, 1);
  }

  lemma Tiles80Ru52Lower()
    ensures Tiles(W80, Lower80Ru52, 1)
  {
  }

  lemma Tiles80Ru52Upper()
    ensures Tiles(W80, Upper80Ru52, 19)
  {
  }

  /** Two tilings, the second starting right after the first, tile together. */
  lemma {:induction false} TilesAppend(w: Width, a: seq<(nat, nat)>, b: seq<(nat, nat)>, from: nat)
    requires a != [] && Tiles(w, a, from) && Tiles(w, b, a[|a| - 1].1 + 1)
    ensures Tiles(w, a + b, from)
  {
    assert (a + b)[0] == a[0] && (a + b)[1..] == a[1..] + b;
    if |a| > 1 {
      TilesAppend(w, a[1..], b, a[0].1 + 1);
    }
  }

  /**
   * The 20 MHz index chain in closed form: 52-tone RUs 1 to 4 cover units
   * 1-2, 3-4, 6-7 and 8-9, 106-tone RUs 1 and 2 cover units 1-4 and 6-9.
   */
  lemma Index20(u: nat)
    requires 1 <= u <= 9 && u != 5
    ensures IndexAt(W20, Ru52, u) == (if u < 5 then (u + 1) / 2 else u / 2)
    ensures IndexAt(W20, Ru106, u) == (if u < 5 then 1 else 2)
  {
    if u <= 2 {
    } else if u <= 4 {
    } else if u <= 7 {
    } else {
    }
  }

  // ---------------------------------------------------------------------
  // Placement, one loop per channel width
  // ---------------------------------------------------------------------

  /**
   * 20 MHz placement (dlulratio_scheduler.cpp:276-322) from entry `i` on,
   * with the cursor at `cursor` and `allocation` placed so far. A wider
   * entry that still fits steps over unit 5 and takes the RU of its class
   * whose range holds the cursor; a 26-tone entry takes the cursor's unit
   * without stepping over unit 5, except the last entry of the array, which
   * always takes the centre 26-tone RU 5.
   */
  function Place20From(ruArray: seq<ToneClass>, i: nat, cursor: nat, allocation: seq<Ru>): seq<Ru>
    requires i <= |ruArray|
    decreases |ruArray| - i
  {
    if i == |ruArray| then allocation
    else
      var c := ruArray[i];
      if cursor > 9 && c != Ru26 then allocation
      else if c == Ru242 then allocation + [Ru(Ru242, SkipUnit(W20, cursor))]
      else if c == Ru106 || c == Ru52 then
        (if cursor + Cost(c) > 10 then allocation
         else
           var at := SkipUnit(W20, cursor);
           Place20From(ruArray, i + 1, at + Cost(c), allocation + [Ru(c, IndexAt(W20, c, at))]))
      else if i == |ruArray| - 1 then allocation + [Ru(Ru26, 5)]
      else if cursor + 1 > 10 then allocation
      else Place20From(ruArray, i + 1, cursor + 1, allocation + [Ru(Ru26, cursor)])
  }

  /**
   * 40 MHz placement (dlulratio_scheduler.cpp:460-536) from entry `i` on.
   * Units 5 and 14 are stepped over before a wider RU; a 26-tone entry among
   * the last two of the array takes the 26-tone RU 5, then 14, as the flags
   * `index5` and `index14` record; other 26-tone entries take the cursor's
   * unit.
   */
  function Place40From(ruArray: seq<ToneClass>, i: nat, cursor: nat, index5: bool, index14: bool,
                       allocation: seq<Ru>): seq<Ru>
    requires i <= |ruArray|
    decreases |ruArray| - i
  {
    if i == |ruArray| then allocation
    else
      var c := ruArray[i];
      if cursor > 18 && c != Ru26 then allocation
      else if c == Ru484 then allocation + [Ru(Ru484, SkipUnit(W40, cursor))]
      else if c == Ru242 || c == Ru106 || c == Ru52 then
        (if cursor + Cost(c) > 19 then allocation
         else
           var at := SkipUnit(W40, cursor);
           Place40From(ruArray, i + 1, at + Cost(c), index5, index14, allocation + [Ru(c, IndexAt(W40, c, at))]))
      else if i == |ruArray| - 1 || i == |ruArray| - 2 then
        (if index5 && index14 then allocation
         else Place40From(ruArray, i + 1, cursor, true, index5 || index14,
                          allocation + [Ru(Ru26, if index5 then 14 else 5)]))
      else if cursor + 1 > 19 then allocation
      else Place40From(ruArray, i + 1, cursor + 1, index5, index14, allocation + [Ru(Ru26, cursor)])
  }

  /**
   * 80 MHz placement (dlulratio_scheduler.cpp:708-785) from entry `i` on:
   * units 5, 14, 19, 24 and 33 are stepped over before a wider RU; 26-tone
   * entries take the cursor's unit; the pass stops once the cursor is past
   * unit 37, whatever the class.
   */
  function Place80From(ruArray: seq<ToneClass>, i: nat, cursor: nat, allocation: seq<Ru>): seq<Ru>
    requires i <= |ruArray|
    decreases |ruArray| - i
  {
    if i == |ruArray| || cursor > 37 then allocation
    else
      var c := ruArray[i];
      if c == Ru996 then allocation + [Ru(Ru996, SkipUnit(W80, cursor))]
      else if c != Ru26 then
        (if cursor + Cost(c) > 38 then allocation
         else
           var at := SkipUnit(W80, cursor);
           Place80From(ruArray, i + 1, at + Cost(c), allocation + [Ru(c, IndexAt(W80, c, at))]))
      else if cursor + 1 > 38 then allocation
      else Place80From(ruArray, i + 1, cursor + 1, allocation + [Ru(Ru26, cursor)])
  }

  /** The allocation the placement pass builds from the corrected array. */
  function Placement(w: Width, ruArray: seq<ToneClass>): seq<Ru>
  {
    match w
    case W20 => Place20From(ruArray, 0, 1, [])
    case W40 => Place40From(ruArray, 0, 1, false, false, [])
    case W80 => Place80From(ruArray, 0, 1, [])
  }

  /** A wider entry that passes the fit guard is placed at a valid index, and the cursor stays in the channel. */
  lemma WideStep(w: Width, ruArray: seq<ToneClass>, allocation: seq<Ru>, c: ToneClass, cursor: nat)
    requires PlacesPrefix(w, ruArray, allocation) && |allocation| < |ruArray| && ruArray[|allocation|] == c
    requires InWidth(w, c) && c != Ru26 && c != FullClass(w)
    requires 1 <= cursor && cursor + Cost(c) <= Budget(w) + 1
    ensures PlacesPrefix(w, ruArray, allocation + [Ru(c, IndexAt(w, c, SkipUnit(w, cursor)))])
    ensures SkipUnit(w, cursor) + Cost(c) <= Budget(w) + 1
  {
    RangesCover(w, c, cursor);
    PlacesAppend(w, ruArray, allocation, Ru(c, IndexAt(w, c, SkipUnit(w, cursor))));
  }

  /** What holds each time the 20 MHz pass reaches entry `i`. */
  predicate Inv20(ruArray: seq<ToneClass>, i: nat, cursor: nat, allocation: seq<Ru>)
  {
    AllInWidth(W20, ruArray) && FullAlone(W20, ruArray) &&
    i <= |ruArray| && |allocation| == i && PlacesPrefix(W20, ruArray, allocation) &&
    1 <= cursor <= Budget(W20) + 1 && (i == 0 ==> cursor == 1) &&
    Post20(ruArray, allocation)
  }

  /** What the 20 MHz placement promises of its result `r`. */
  predicate Post20(ruArray: seq<ToneClass>, r: seq<Ru>)
  {
    PlacesPrefix(W20, ruArray, r) &&
    (|r| == |ruArray| > 0 && ruArray[|ruArray| - 1] == Ru26 ==> r[|ruArray| - 1] == Ru(Ru26, 5))
  }

  /** One entry of the 20 MHz pass: it ends the pass, or moves on with the invariant kept. */
  lemma Place20Next(ruArray: seq<ToneClass>, i: nat, cursor: nat, allocation: seq<Ru>)
    returns (done: bool, next: nat, placed: seq<Ru>)
    requires Inv20(ruArray, i, cursor, allocation) && i < |ruArray|
    ensures done ==> Post20(ruArray, Place20From(ruArray, i, cursor, allocation))
    ensures !done ==> Inv20(ruArray, i + 1, next, placed)
    ensures !done ==> Place20From(ruArray, i, cursor, allocation) == Place20From(ruArray, i + 1, next, placed)
  {
    done, next, placed := true, cursor, allocation;
    var c := ruArray[i];
    if cursor > 9 && c != Ru26 {
    } else if c == Ru242 {
      PlacesAppend(W20, ruArray, allocation, Ru(Ru242, SkipUnit(W20, cursor)));
    } else if c == Ru106 || c == Ru52 {
      if cursor + Cost(c) <= 10 {
        WideStep(W20, ruArray, allocation, c, cursor);
        var at := SkipUnit(W20, cursor);
        done, next, placed := false, at + Cost(c), allocation + [Ru(c, IndexAt(W20, c, at))];
      }
    } else if i == |ruArray| - 1 {
      PlacesAppend(W20, ruArray, allocation, Ru(Ru26, 5));
    } else if cursor + 1 <= 10 {
      PlacesAppend(W20, ruArray, allocation, Ru(Ru26, cursor));
      done, next, placed := false, cursor + 1, allocation + [Ru(Ru26, cursor)];
    }
  }

  lemma {:induction false} Place20FromSpec(ruArray: seq<ToneClass>, i: nat, cursor: nat, allocation: seq<Ru>)
    requires Inv20(ruArray, i, cursor, allocation)
    ensures Post20(ruArray, Place20From(ruArray, i, cursor, allocation))
    decreases |ruArray| - i
  {
    if i < |ruArray| {
      var done, next, placed := Place20Next(ruArray, i, cursor, allocation);
      if !done {
        Place20FromSpec(ruArray, i + 1, next, placed);
      }
    }
  }

  /**
   * At 20 MHz every placed RU is the next entry's class at an index the tone
   * plan has, and a last 26-tone entry, when placed, takes the centre RU 5.
   */
  lemma Placement20Spec(ruArray: seq<ToneClass>)
    requires AllInWidth(W20, ruArray) && FullAlone(W20, ruArray)
    ensures var r := Placement(W20, ruArray);
      PlacesPrefix(W20, ruArray, r) &&
      (|r| == |ruArray| > 0 && ruArray[|ruArray| - 1] == Ru26 ==> r[|ruArray| - 1] == Ru(Ru26, 5))
  {
    assert Inv20(ruArray, 0, 1, []);
    Place20FromSpec(ruArray, 0, 1, []);
  }

  /** What holds each time the 40 MHz pass reaches entry `i`. */
  predicate Inv40(ruArray: seq<ToneClass>, i: nat, cursor: nat, index5: bool, index14: bool, allocation: seq<Ru>)
  {
    AllInWidth(W40, ruArray) && FullAlone(W40, ruArray) &&
    i <= |ruArray| && |allocation| == i && PlacesPrefix(W40, ruArray, allocation) &&
    1 <= cursor <= Budget(W40) + 1 && (i == 0 ==> cursor == 1) &&
    index5 == (TailCount26(ruArray, i) >= 1) && index14 == (TailCount26(ruArray, i) >= 2) &&
    (|ruArray| >= 2 && i >= |ruArray| - 1 && ruArray[|ruArray| - 2] == Ru26 ==>
      allocation[|ruArray| - 2].index == 5) &&
    (i == |ruArray| >= 1 && ruArray[|ruArray| - 1] == Ru26 ==>
      allocation[|ruArray| - 1].index == (if |ruArray| >= 2 && ruArray[|ruArray| - 2] == Ru26 then 14 else 5))
  }

  /** What the 40 MHz placement promises of its result `r`. */
  predicate Post40(ruArray: seq<ToneClass>, r: seq<Ru>)
  {
    PlacesPrefix(W40, ruArray, r) &&
    (|ruArray| >= 2 && |r| >= |ruArray| - 1 && ruArray[|ruArray| - 2] == Ru26 ==> r[|ruArray| - 2].index == 5) &&
    (|r| == |ruArray| >= 1 && ruArray[|ruArray| - 1] == Ru26 ==>
      r[|ruArray| - 1].index == (if |ruArray| >= 2 && ruArray[|ruArray| - 2] == Ru26 then 14 else 5))
  }

  /** A pass that stops at entry `i` keeps what it has placed. */
  lemma Stop40(ruArray: seq<ToneClass>, i: nat, cursor: nat, index5: bool, index14: bool, allocation: seq<Ru>)
    requires Inv40(ruArray, i, cursor, index5, index14, allocation)
    ensures Post40(ruArray, allocation)
  {
  }

  /** One entry of the 40 MHz pass: it ends the pass, or moves on with the invariant kept. */
  lemma Place40Next(ruArray: seq<ToneClass>, i: nat, cursor: nat, index5: bool, index14: bool, allocation: seq<Ru>)
    returns (done: bool, next: nat, next5: bool, next14: bool, placed: seq<Ru>)
    requires Inv40(ruArray, i, cursor, index5, index14, allocation) && i < |ruArray|
    ensures done ==> Post40(ruArray, Place40From(ruArray, i, cursor, index5, index14, allocation))
    ensures !done ==> Inv40(ruArray, i + 1, next, next5, next14, placed)
    ensures !done ==>
      Place40From(ruArray, i, cursor, index5, index14, allocation) == Place40From(ruArray, i + 1, next, next5, next14, placed)
  {
    done, next, next5, next14, placed := true, cursor, index5, index14, allocation;
    var c := ruArray[i];
    TailStep(ruArray, i);
    if cursor > 18 && c != Ru26 {
      Stop40(ruArray, i, cursor, index5, index14, allocation);
    } else if c == Ru484 {
      PlacesAppend(W40, ruArray, allocation, Ru(Ru484, SkipUnit(W40, cursor)));
    } else if c == Ru242 || c == Ru106 || c == Ru52 {
      if cursor + Cost(c) <= 19 {
        WideStep(W40, ruArray, allocation, c, cursor);
        var at := SkipUnit(W40, cursor);
        done, next, placed := false, at + Cost(c), allocation + [Ru(c, IndexAt(W40, c, at))];
      } else {
        Stop40(ruArray, i, cursor, index5, index14, allocation);
      }
    } else if i == |ruArray| - 1 || i == |ruArray| - 2 {
      if !(index5 && index14) {
        var r := Ru(Ru26, if index5 then 14 else 5);
        PlacesAppend(W40, ruArray, allocation, r);
        done, next5, next14, placed := false, true, index5 || index14, allocation + [r];
      } else {
        Stop40(ruArray, i, cursor, index5, index14, allocation);
      }
    } else if cursor + 1 <= 19 {
      PlacesAppend(W40, ruArray, allocation, Ru(Ru26, cursor));
      done, next, placed := false, cursor + 1, allocation + [Ru(Ru26, cursor)];
    } else {
      Stop40(ruArray, i, cursor, index5, index14, allocation);
    }
  }

  lemma {:induction false} Place40FromSpec(ruArray: seq<ToneClass>, i: nat, cursor: nat, index5: bool, index14: bool,
                                           allocation: seq<Ru>)
    requires Inv40(ruArray, i, cursor, index5, index14, allocation)
    ensures Post40(ruArray, Place40From(ruArray, i, cursor, index5, index14, allocation))
    decreases |ruArray| - i
  {
    if i == |ruArray| {
      Stop40(ruArray, i, cursor, index5, index14, allocation);
    } else {
      var done, next, next5, next14, placed := Place40Next(ruArray, i, cursor, index5, index14, allocation);
      if !done {
        Place40FromSpec(ruArray, i + 1, next, next5, next14, placed);
      }
    }
  }

  /**
   * At 40 MHz every placed RU is the next entry's class at an index the tone
   * plan has; 26-tone entries among the last two take the 26-tone RU 5 and
   * then 14.
   */
  lemma Placement40Spec(ruArray: seq<ToneClass>)
    requires AllInWidth(W40, ruArray) && FullAlone(W40, ruArray)
    ensures var r := Placement(W40, ruArray);
      PlacesPrefix(W40, ruArray, r) &&
      (|ruArray| >= 2 && |r| >= |ruArray| - 1 && ruArray[|ruArray| - 2] == Ru26 ==> r[|ruArray| - 2].index == 5) &&
      (|r| == |ruArray| >= 1 && ruArray[|ruArray| - 1] == Ru26 ==>
        r[|ruArray| - 1].index == (if |ruArray| >= 2 && ruArray[|ruArray| - 2] == Ru26 then 14 else 5))
  {
    assert Inv40(ruArray, 0, 1, false, false, []);
    Place40FromSpec(ruArray, 0, 1, false, false, []);
  }

  /** What holds each time the 80 MHz pass reaches entry `i`. */
  predicate Inv80(ruArray: seq<ToneClass>, i: nat, cursor: nat, allocation: seq<Ru>)
  {
    AllInWidth(W80, ruArray) && FullAlone(W80, ruArray) &&
    i <= |ruArray| && |allocation| == i && PlacesPrefix(W80, ruArray, allocation) &&
    1 <= cursor <= Budget(W80) + 1 && (i == 0 ==> cursor == 1)
  }

  /** One entry of the 80 MHz pass: it ends the pass, or moves on with the invariant kept. */
  lemma Place80Next(ruArray: seq<ToneClass>, i: nat, cursor: nat, allocation: seq<Ru>)
    returns (done: bool, next: nat, placed: seq<Ru>)
    requires Inv80(ruArray, i, cursor, allocation) && i < |ruArray|
    ensures done ==> PlacesPrefix(W80, ruArray, Place80From(ruArray, i, cursor, allocation))
    ensures !done ==> Inv80(ruArray, i + 1, next, placed)
    ensures !done ==> Place80From(ruArray, i, cursor, allocation) == Place80From(ruArray, i + 1, next, placed)
  {
    done, next, placed := true, cursor, allocation;
    var c := ruArray[i];
    if cursor > 37 {
    } else if c == Ru996 {
      PlacesAppend(W80, ruArray, allocation, Ru(Ru996, SkipUnit(W80, cursor)));
    } else if c != Ru26 {
      if cursor + Cost(c) <= 38 {
        WideStep(W80, ruArray, allocation, c, cursor);
        var at := SkipUnit(W80, cursor);
        done, next, placed := false, at + Cost(c), allocation + [Ru(c, IndexAt(W80, c, at))];
      }
    } else if cursor + 1 <= 38 {
      PlacesAppend(W80, ruArray, allocation, Ru(Ru26, cursor));
      done, next, placed := false, cursor + 1, allocation + [Ru(Ru26, cursor)];
    }
  }

  lemma {:induction false} Place80FromSpec(ruArray: seq<ToneClass>, i: nat, cursor: nat, allocation: seq<Ru>)
    requires Inv80(ruArray, i, cursor, allocation)
    ensures PlacesPrefix(W80, ruArray, Place80From(ruArray, i, cursor, allocation))
    decreases |ruArray| - i
  {
    if i < |ruArray| {
      var done, next, placed := Place80Next(ruArray, i, cursor, allocation);
      if !done {
        Place80FromSpec(ruArray, i + 1, next, placed);
      }
    }
  }

  /**
   * At every width the allocation places a prefix of the corrected array,
   * each entry at an RU index the tone plan has for its class, and the whole
   * channel, alone, takes RU 1.
   */
  lemma PlacementSpec(w: Width, ruArray: seq<ToneClass>)
    requires AllInWidth(w, ruArray) && FullAlone(w, ruArray)
    ensures PlacesPrefix(w, ruArray, Placement(w, ruArray))
    ensures ruArray == [FullClass(w)] ==> Placement(w, ruArray) == [Ru(FullClass(w), 1)]
  {
    match w {
      case W20 => Placement20Spec(ruArray);
      case W40 => Placement40Spec(ruArray);
      case W80 =>
        assert Inv80(ruArray, 0, 1, []);
        Place80FromSpec(ruArray, 0, 1, []);
    }
  }

  /**
   * Four 106-tone entries on a 40 MHz channel: the cursor steps over unit 5
   * before the second and over unit 14 before the fourth, so they take the
   * four 106-tone RUs in order.
   */
  lemma Quarters40StepOverCentres()
    ensures Placement(W40, [Ru106, Ru106, Ru106, Ru106]) ==
      [Ru(Ru106, 1), Ru(Ru106, 2), Ru(Ru106, 3), Ru(Ru106, 4)]
  {
    var q := [Ru106, Ru106, Ru106, Ru106];
    assert SkipUnit(W40, 5) == 6 && SkipUnit(W40, 14) == 15;
    assert IndexAt(W40, Ru106, 1) == 1 && IndexAt(W40, Ru106, 6) == 2;
    assert IndexAt(W40, Ru106, 10) == 3 && IndexAt(W40, Ru106, 15) == 4;
    var a1 := [] + [Ru(Ru106, 1)];
    var a2 := a1 + [Ru(Ru106, 2)];
    var a3 := a2 + [Ru(Ru106, 3)];
    var a4 := a3 + [Ru(Ru106, 4)];
    assert Place40From(q, 3, 14, false, false, a3) == Place40From(q, 4, 19, false, false, a4);
    assert Place40From(q, 2, 10, false, false, a2) == Place40From(q, 3, 14, false, false, a3);
    assert Place40From(q, 1, 5, false, false, a1) == Place40From(q, 2, 10, false, false, a2);
    assert Place40From(q, 0, 1, false, false, []) == Place40From(q, 1, 5, false, false, a1);
  }

  /** One wider entry of the 40 MHz pass that still fits, as one equation. */
  lemma Wide40Step(ruArray: seq<ToneClass>, i: nat, cursor: nat, index5: bool, index14: bool, allocation: seq<Ru>)
    requires i < |ruArray| && cursor <= 18 && ruArray[i] in {Ru52, Ru106, Ru242}
    requires cursor + Cost(ruArray[i]) <= 19
    ensures var c, at := ruArray[i], SkipUnit(W40, cursor);
      Place40From(ruArray, i, cursor, index5, index14, allocation) ==
      Place40From(ruArray, i + 1, at + Cost(c), index5, index14, allocation + [Ru(c, IndexAt(W40, c, at))])
  {
  }

  /**
   * Four 52-tone entries and two 26-tone entries on a 40 MHz channel: the
   * 52-tone RUs fill units 1-4 and, past unit 5, units 6-9; the two 26-tone
   * entries at the end take the centre RUs 5 and 14.
   */
  lemma CentreTones40()
    ensures Placement(W40, [Ru52, Ru52, Ru52, Ru52, Ru26, Ru26]) ==
      [Ru(Ru52, 1), Ru(Ru52, 2), Ru(Ru52, 3), Ru(Ru52, 4), Ru(Ru26, 5), Ru(Ru26, 14)]
  {
    var q := [Ru52, Ru52, Ru52, Ru52, Ru26, Ru26];
    Starts40Ru52();
    var a1 := [] + [Ru(Ru52, 1)];
    var a2 := a1 + [Ru(Ru52, 2)];
    var a3 := a2 + [Ru(Ru52, 3)];
    var a4 := a3 + [Ru(Ru52, 4)];
    var a5 := a4 + [Ru(Ru26, 5)];
    var a6 := a5 + [Ru(Ru26, 14)];
    Wide40Step(q, 0, 1, false, false, []);
    Wide40Step(q, 1, 3, false, false, a1);
    Wide40Step(q, 2, 5, false, false, a2);
    Wide40Step(q, 3, 8, false, false, a3);
    Centre40Step(q, 4, 10, false, false, a4);
    Centre40Step(q, 5, 10, true, false, a5);
    assert Place40From(q, 6, 10, true, true, a6) == a6;
  }

  /** The cursor positions of the 52-tone RUs of the lower 20 MHz of a 40 MHz channel. */
  lemma Starts40Ru52()
    ensures SkipUnit(W40, 1) == 1 && SkipUnit(W40, 3) == 3 && SkipUnit(W40, 5) == 6 && SkipUnit(W40, 8) == 8
    ensures IndexAt(W40, Ru52, 1) == 1 && IndexAt(W40, Ru52, 3) == 2
    ensures IndexAt(W40, Ru52, 6) == 3 && IndexAt(W40, Ru52, 8) == 4
  {
  }

  /** A 26-tone entry among the last two of the 40 MHz pass, as one equation. */
  lemma Centre40Step(ruArray: seq<ToneClass>, i: nat, cursor: nat, index5: bool, index14: bool, allocation: seq<Ru>)
    requires i < |ruArray| && ruArray[i] == Ru26 && i + 2 >= |ruArray| && !(index5 && index14)
    ensures Place40From(ruArray, i, cursor, index5, index14, allocation) ==
      Place40From(ruArray, i + 1, cursor, true, index5 || index14,
                  allocation + [Ru(Ru26, if index5 then 14 else 5)])
  {
  }

  /** One wider entry of the 80 MHz pass that still fits, as one equation. */
  lemma Wide80Step(ruArray: seq<ToneClass>, i: nat, cursor: nat, allocation: seq<Ru>)
    requires i < |ruArray| && cursor <= 37 && ruArray[i] != Ru26 && ruArray[i] != Ru996
    requires cursor + Cost(ruArray[i]) <= 38
    ensures var c, at := ruArray[i], SkipUnit(W80, cursor);
      Place80From(ruArray, i, cursor, allocation) ==
      Place80From(ruArray, i + 1, at + Cost(c), allocation + [Ru(c, IndexAt(W80, c, at))])
  {
  }

  /** Past each centre unit, the cursor lands on the start of the next 106-tone RU of an 80 MHz channel. */
  lemma Starts80Ru106()
    ensures SkipUnit(W80, 5) == 6 && SkipUnit(W80, 14) == 15 && SkipUnit(W80, 19) == 20
    ensures SkipUnit(W80, 24) == 25 && SkipUnit(W80, 33) == 34
    ensures SkipUnit(W80, 1) == 1 && SkipUnit(W80, 10) == 10 && SkipUnit(W80, 29) == 29
    ensures IndexAt(W80, Ru106, 1) == 1 && IndexAt(W80, Ru106, 6) == 2
    ensures IndexAt(W80, Ru106, 10) == 3 && IndexAt(W80, Ru106, 15) == 4
    ensures IndexAt(W80, Ru106, 20) == 5 && IndexAt(W80, Ru106, 25) == 6
    ensures IndexAt(W80, Ru106, 29) == 7 && IndexAt(W80, Ru106, 34) == 8
  {
  }

  /**
   * Eight 106-tone entries on an 80 MHz channel: the cursor steps over units
   * 5, 14, 19, 24 and 33, so they take the eight 106-tone RUs in order.
   */
  lemma Eighths80StepOverCentres()
    ensures Placement(W80, seq(8, _ => Ru106)) ==
      [Ru(Ru106, 1), Ru(Ru106, 2), Ru(Ru106, 3), Ru(Ru106, 4),
       Ru(Ru106, 5), Ru(Ru106, 6), Ru(Ru106, 7), Ru(Ru106, 8)]
  {
    var q := seq(8, _ => Ru106);
    Starts80Ru106();
    var a1 := [] + [Ru(Ru106, 1)];
    var a2 := a1 + [Ru(Ru106, 2)];
    var a3 := a2 + [Ru(Ru106, 3)];
    var a4 := a3 + [Ru(Ru106, 4)];
    var a5 := a4 + [Ru(Ru106, 5)];
    var a6 := a5 + [Ru(Ru106, 6)];
    var a7 := a6 + [Ru(Ru106, 7)];
    var a8 := a7 + [Ru(Ru106, 8)];
    Wide80Step(q, 0, 1, []);
    Wide80Step(q, 1, 5, a1);
    Wide80Step(q, 2, 10, a2);
    Wide80Step(q, 3, 14, a3);
    Wide80Step(q, 4, 19, a4);
    Wide80Step(q, 5, 24, a5);
    Wide80Step(q, 6, 29, a6);
    Wide80Step(q, 7, 33, a7);
    assert Place80From(q, 8, 38, a8) == a8;
  }

  /** The 20 MHz placement loop of dlulratio_scheduler.cpp:276-322. */
  method Place20(ruArray: seq<ToneClass>) returns (allocation: seq<Ru>)
    requires AllInWidth(W20, ruArray) && FullAlone(W20, ruArray)
    ensures allocation == Placement(W20, ruArray)
    ensures PlacesPrefix(W20, ruArray, allocation)
    ensures |allocation| == |ruArray| > 0 && ruArray[|ruArray| - 1] == Ru26 ==>
      allocation[|ruArray| - 1] == Ru(Ru26, 5)
    ensures ruArray == [Ru242] ==> allocation == [Ru(Ru242, 1)]
  {
    allocation := [];
    var cursor: nat := 1;
    var i := 0;
    while i < |ruArray|
      invariant 0 <= i <= |ruArray|
      invariant Place20From(ruArray, i, cursor, allocation) == Place20From(ruArray, 0, 1, [])
    {
      var c := ruArray[i];
      if cursor > 9 && c != Ru26 {
        break;
      }
      if c == Ru242 {
        cursor := SkipUnit(W20, cursor);
        allocation := allocation + [Ru(Ru242, cursor)];
        break;
      } else if c == Ru106 || c == Ru52 {
        // the same steps with the class's width
        if cursor + Cost(c) > 10 {
          break;
        }
        cursor := SkipUnit(W20, cursor);
        allocation := allocation + [Ru(c, IndexAt(W20, c, cursor))];
        cursor := cursor + Cost(c);
      } else {
        // only the 26-tone class is left in a 20 MHz array
        if i == |ruArray| - 1 {
          allocation := allocation + [Ru(Ru26, 5)];
        } else {
          if cursor + 1 > 10 {
            break;
          }
          allocation := allocation + [Ru(Ru26, cursor)];
          cursor := cursor + 1;
        }
      }
      i := i + 1;
    }
    Placement20Spec(ruArray);
    PlacementSpec(W20, ruArray);
  }

  /** How many of the last two entries, among the first i, are 26-tone entries. */
  function TailCount26(s: seq<ToneClass>, i: int): nat
  {
    (if 0 <= |s| - 2 < i && s[|s| - 2] == Ru26 then 1 else 0) +
    (if 0 <= |s| - 1 < i && s[|s| - 1] == Ru26 then 1 else 0)
  }

  lemma TailStep(s: seq<ToneClass>, i: nat)
    requires i < |s|
    ensures TailCount26(s, i + 1) ==
      TailCount26(s, i) + (if i >= |s| - 2 && s[i] == Ru26 then 1 else 0)
    ensures i < |s| - 2 ==> TailCount26(s, i) == 0
  {
  }

  // The ways the 40 MHz pass moves past entry `i`, each as one equation.

  lemma Halt40(ruArray: seq<ToneClass>, i: nat, cursor: nat, index5: bool, index14: bool, allocation: seq<Ru>)
    requires i < |ruArray|
    requires var c := ruArray[i];
      (cursor > 18 && c != Ru26) ||
      (c in {Ru242, Ru106, Ru52} && cursor + Cost(c) > 19) ||
      (c == Ru26 && i + 2 >= |ruArray| && index5 && index14) ||
      (c == Ru26 && i + 2 < |ruArray| && cursor + 1 > 19)
    ensures Place40From(ruArray, i, cursor, index5, index14, allocation) == allocation
  {
  }

  lemma Full40Step(ruArray: seq<ToneClass>, i: nat, cursor: nat, index5: bool, index14: bool, allocation: seq<Ru>)
    requires i < |ruArray| && ruArray[i] == Ru484 && cursor <= 18
    ensures Place40From(ruArray, i, cursor, index5, index14, allocation) ==
      allocation + [Ru(Ru484, SkipUnit(W40, cursor))]
  {
  }

  lemma Tone40Step(ruArray: seq<ToneClass>, i: nat, cursor: nat, index5: bool, index14: bool, allocation: seq<Ru>)
    requires i + 2 < |ruArray| && ruArray[i] == Ru26 && cursor + 1 <= 19
    ensures Place40From(ruArray, i, cursor, index5, index14, allocation) ==
      Place40From(ruArray, i + 1, cursor + 1, index5, index14, allocation + [Ru(Ru26, cursor)])
  {
  }

  /** The 40 MHz placement loop of dlulratio_scheduler.cpp:460-536. */
  method Place40(ruArray: seq<ToneClass>) returns (allocation: seq<Ru>)
    requires AllInWidth(W40, ruArray) && FullAlone(W40, ruArray)
    ensures allocation == Placement(W40, ruArray)
    ensures PlacesPrefix(W40, ruArray, allocation)
    ensures |ruArray| >= 2 && |allocation| >= |ruArray| - 1 && ruArray[|ruArray| - 2] == Ru26 ==>
      allocation[|ruArray| - 2].index == 5
    ensures |allocation| == |ruArray| >= 1 && ruArray[|ruArray| - 1] == Ru26 ==>
      allocation[|ruArray| - 1].index == (if |ruArray| >= 2 && ruArray[|ruArray| - 2] == Ru26 then 14 else 5)
    ensures ruArray == [Ru484] ==> allocation == [Ru(Ru484, 1)]
  {
    allocation := [];
    var cursor: nat := 1;
    var index5, index14 := false, false;
    var i := 0;
    while i < |ruArray|
      invariant 0 <= i <= |ruArray|
      invariant Place40From(ruArray, i, cursor, index5, index14, allocation) == Place40From(ruArray, 0, 1, false, false, [])
    {
      var c := ruArray[i];
      if cursor > 18 && c != Ru26 {
        Halt40(ruArray, i, cursor, index5, index14, allocation);
        break;
      }
      if c == Ru484 {
        Full40Step(ruArray, i, cursor, index5, index14, allocation);
        cursor := SkipUnit(W40, cursor);
        allocation := allocation + [Ru(Ru484, cursor)];
        break;
      } else if c == Ru242 || c == Ru106 || c == Ru52 {
        // the same steps with the class's width
        if cursor + Cost(c) > 19 {
          Halt40(ruArray, i, cursor, index5, index14, allocation);
          break;
        }
        Wide40Step(ruArray, i, cursor, index5, index14, allocation);
        cursor := SkipUnit(W40, cursor);
        allocation := allocation + [Ru(c, IndexAt(W40, c, cursor))];
        cursor := cursor + Cost(c);
      } else {
        // only the 26-tone class is left in a 40 MHz array
        if i == |ruArray| - 1 || i == |ruArray| - 2 {
          if !index5 || !index14 {
            Centre40Step(ruArray, i, cursor, index5, index14, allocation);
            var index26 := 5;
            if index5 {
              index26 := 14;
              index14 := true;
            } else {
              index5 := true;
            }
            allocation := allocation + [Ru(Ru26, index26)];
          } else {
            Halt40(ruArray, i, cursor, index5, index14, allocation);
            break;
          }
        } else {
          if cursor + 1 > 19 {
            Halt40(ruArray, i, cursor, index5, index14, allocation);
            break;
          }
          Tone40Step(ruArray, i, cursor, index5, index14, allocation);
          allocation := allocation + [Ru(Ru26, cursor)];
          cursor := cursor + 1;
        }
      }
      i := i + 1;
    }
    Placement40Spec(ruArray);
    PlacementSpec(W40, ruArray);
  }

  /** The 80 MHz placement loop of dlulratio_scheduler.cpp:708-785. */
  method Place80(ruArray: seq<ToneClass>) returns (allocation: seq<Ru>)
    requires AllInWidth(W80, ruArray) && FullAlone(W80, ruArray)
    ensures allocation == Placement(W80, ruArray)
    ensures PlacesPrefix(W80, ruArray, allocation)
    ensures ruArray == [Ru996] ==> allocation == [Ru(Ru996, 1)]
  {
    allocation := [];
    var cursor: nat := 1;
    var i := 0;
    while i < |ruArray|
      invariant 0 <= i <= |ruArray|
      invariant Place80From(ruArray, i, cursor, allocation) == Place80From(ruArray, 0, 1, [])
    {
      var c := ruArray[i];
      if cursor > 37 {
        break;
      }
      if c == Ru996 {
        cursor := SkipUnit(W80, cursor);
        allocation := allocation + [Ru(Ru996, cursor)];
        break;
      } else if c != Ru26 {
        // 484-, 242-, 106- and 52-tone entries: the same steps with the class's width
        if cursor + Cost(c) > 38 {
          break;
        }
        cursor := SkipUnit(W80, cursor);
        allocation := allocation + [Ru(c, IndexAt(W80, c, cursor))];
        cursor := cursor + Cost(c);
      } else {
        if cursor + 1 > 38 {
          break;
        }
        allocation := allocation + [Ru(Ru26, cursor)];
        cursor := cursor + 1;
      }
      i := i + 1;
    }
    PlacementSpec(W80, ruArray);
  }
}
