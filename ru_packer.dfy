/**
 * The proportional RU packer of the DL/UL-ratio scheduler
 * (`prop_scheduler_fun`): each candidate's demand is turned into a share of
 * the channel's 26-tone units, each share into a tone class (selection), the
 * unspent units are used to enlarge the chosen classes (correction), and the
 * classes are laid out left to right on the channel (placement).
 */
module RuPacker {
  import opened Wrappers
  import opened HeRu
  import opened Ordering

  function Sum(s: seq<nat>): nat
  {
    if s == [] then 0 else s[0] + Sum(s[1..])
  }

  lemma {:induction false} SumPrefix(s: seq<nat>, i: nat)
    requires i < |s|
    ensures Sum(s[..i + 1]) == Sum(s[..i]) + s[i]
    ensures Sum(s[..i + 1]) <= Sum(s)
  {
    if i == 0 {
      assert s[..1] == [s[0]];
      assert s[..1][1..] == [];
      SumNonNegTail(s);
    } else {
      assert s[..i + 1][1..] == s[1..][..i];
      assert s[..i][1..] == s[1..][..i - 1];
      SumPrefix(s[1..], i - 1);
    }
  }

  lemma SumNonNegTail(s: seq<nat>)
    requires |s| > 0
    ensures Sum(s) >= s[0]
  {
  }

  // ---------------------------------------------------------------------
  // Shares
  // ---------------------------------------------------------------------

  /** A demand's share of `units`, rounded down, out of a total demand `total`. */
  function Share(q: nat, units: nat, total: nat): nat
    requires total > 0
  {
    q * units / total
  }

  /**
   * Each candidate's share of the channel's `units` 26-tone units, in
   * proportion to its demand and rounded down (dlulratio_scheduler.cpp:180-184).
   */
  function SharesOf(demands: seq<nat>, units: nat): seq<nat>
    requires Sum(demands) > 0
  {
    seq(|demands|, k requires 0 <= k < |demands| => Share(demands[k], units, Sum(demands)))
  }

  /** Rounded down, the shares never add up to more than the channel. */
  lemma SharesFit(demands: seq<nat>, units: nat)
    requires Sum(demands) > 0
    ensures |SharesOf(demands, units)| == |demands|
    ensures Sum(SharesOf(demands, units)) <= units
  {
    var total := Sum(demands);
    var shares := SharesOf(demands, units);
    SharesBound(demands, shares, units, total);
    if Sum(shares) > units {
      MulMono(Sum(shares), units + 1, total);
      DistribAdd(units, 1, total);
      Comm(units, total);
    }
  }

  /** The loop of dlulratio_scheduler.cpp:180-184, building the shares one candidate at a time. */
  method ProportionalShares(demands: seq<nat>, units: nat) returns (shares: seq<nat>)
    requires Sum(demands) > 0
    ensures shares == SharesOf(demands, units)
    ensures |shares| == |demands|
    ensures forall k :: 0 <= k < |demands| ==> shares[k] == Share(demands[k], units, Sum(demands))
    ensures Sum(shares) <= units
  {
    var total := Sum(demands);
    shares := [];
    var i := 0;
    while i < |demands|
      invariant 0 <= i <= |demands| && |shares| == i
      invariant forall k :: 0 <= k < i ==> shares[k] == Share(demands[k], units, total)
    {
      shares := shares + [Share(demands[i], units, total)];
      i := i + 1;
    }
    SharesFit(demands, units);
  }

  /** Rounded-down shares lose, in total, at most what exact division would give. */
  lemma {:induction false} SharesBound(d: seq<nat>, r: seq<nat>, units: nat, total: nat)
    requires total > 0 && |r| == |d|
    requires forall k :: 0 <= k < |d| ==> r[k] == Share(d[k], units, total)
    ensures Sum(r) * total <= units * Sum(d)
  {
    if d != [] {
      SharesBound(d[1..], r[1..], units, total);
      var x := d[0] * units;
      assert x == (x / total) * total + x % total;
      DistribAdd(r[0], Sum(r[1..]), total);
      Comm(d[0], units);
      Comm(units, d[0] + Sum(d[1..]));
      DistribAdd(d[0], Sum(d[1..]), units);
      Comm(Sum(d[1..]), units);
    }
  }

  /** A single candidate, or any candidate holding all of the demand, gets the whole channel. */
  lemma WholeDemandWholeShare(q: nat, units: nat)
    requires q > 0
    ensures Share(q, units, q) == units
  {
    var x := q * units;
    var d := x / q;
    var r := x % q;
    assert x == d * q + r && 0 <= r < q;
    Comm(q, units);
    Distrib(units, d, q);
    if units > d {
      MulAtLeast(units - d, q);
    } else if units < d {
      Distrib(d, units, q);
      MulAtLeast(d - units, q);
    }
  }

  // Small facts of non-linear arithmetic, stated one at a time.

  lemma MulAtLeast(a: int, q: int)
    requires a >= 1 && q >= 1
    ensures a * q >= q
  {
  }

  lemma MulMono(a: int, b: int, t: nat)
    requires a >= b
    ensures a * t >= b * t
  {
  }

  lemma Distrib(a: int, b: int, q: int)
    ensures a * q - b * q == (a - b) * q
  {
  }

  lemma DistribAdd(a: int, b: int, q: int)
    ensures (a + b) * q == a * q + b * q
  {
  }

  lemma Comm(a: int, b: int)
    ensures a * b == b * a
  {
  }

  // ---------------------------------------------------------------------
  // Selection
  // ---------------------------------------------------------------------

  /**
   * The tone class the else-if chain picks for a share
   * (dlulratio_scheduler.cpp:197-220 for 20 MHz, 344-377 for 40 MHz,
   * 556-596 for 80 MHz). A share of 0 or above the channel picks nothing.
   */
  function SelectedClass(w: Width, share: int): Option<ToneClass>
  {
    if share == 1 then Some(Ru26)
    else if 2 <= share < 4 then Some(Ru52)
    else if 4 <= share < 9 then Some(Ru106)
    else if w == W20 then (if share == 9 then Some(Ru242) else None)
    else if 9 <= share < 18 then Some(Ru242)
    else if w == W40 then (if share == 18 then Some(Ru484) else None)
    else if 18 <= share < 37 then Some(Ru484)
    else if share == 37 then Some(Ru996)
    else None
  }

  /**
   * The chain picks, for every share between 1 and the channel, the LARGEST
   * class of the channel whose cost does not exceed the share, and it picks the
   * whole-channel class exactly when the share is the whole channel.
   */
  lemma SelectedClassIsLargestFit(w: Width, share: int, d: ToneClass)
    ensures SelectedClass(w, share).Some? <==> 1 <= share <= Budget(w)
    ensures SelectedClass(w, share).Some? ==>
      InWidth(w, SelectedClass(w, share).value) && Cost(SelectedClass(w, share).value) <= share
    ensures SelectedClass(w, share).Some? && InWidth(w, d) && Cost(d) <= share ==>
      Cost(d) <= Cost(SelectedClass(w, share).value)
    ensures SelectedClass(w, share) == Some(FullClass(w)) <==> share == Budget(w)
  {
  }

  /** No class other than the whole-channel one exceeds its count in the tone plan. */
  predicate WithinCaps(w: Width, s: seq<ToneClass>)
  {
    forall c :: c != FullClass(w) ==> CountOf(s, c) <= NumRus(w, c)
  }

  predicate AllInWidth(w: Width, s: seq<ToneClass>)
  {
    forall k :: 0 <= k < |s| ==> InWidth(w, s[k])
  }

  /** The whole-channel class only ever appears on its own. */
  predicate FullAlone(w: Width, s: seq<ToneClass>)
  {
    FullClass(w) in s ==> s == [FullClass(w)]
  }

  lemma ZeroCostEmpty(s: seq<ToneClass>)
    ensures TotalCost(s) == 0 <==> s == []
  {
  }

  /** The class one share picks, as a sequence of zero or one entries. */
  function PickOf(w: Width, share: nat): seq<ToneClass>
  {
    match SelectedClass(w, share)
    case None => []
    case Some(c) => [c]
  }

  /** The classes the shares pick, in share order, before any cap or size limit. */
  function Picks(w: Width, shares: seq<nat>): seq<ToneClass>
  {
    if shares == [] then [] else PickOf(w, shares[0]) + Picks(w, shares[1..])
  }

  lemma PicksAt(w: Width, s: seq<nat>, i: nat)
    requires i < |s|
    ensures Picks(w, s[i..]) == PickOf(w, s[i]) + Picks(w, s[i + 1..])
  {
    assert s[i..][1..] == s[i + 1..];
  }

  /** A share never picks a class costing more than itself. */
  lemma {:induction false} PicksCost(w: Width, s: seq<nat>)
    ensures TotalCost(Picks(w, s)) <= Sum(s)
  {
    if s != [] {
      PicksCost(w, s[1..]);
      SelectedClassIsLargestFit(w, s[0], Ru26);
      TotalCostAppend(PickOf(w, s[0]), Picks(w, s[1..]));
    }
  }

  lemma {:induction false} LengthCost(s: seq<ToneClass>)
    ensures |s| <= TotalCost(s)
  {
    if s != [] {
      LengthCost(s[1..]);
    }
  }

  lemma SumUpTo(s: seq<nat>, i: nat)
    requires i <= |s|
    ensures Sum(s[..i]) <= Sum(s)
  {
    if i < |s| {
      SumPrefix(s, i);
    } else {
      assert s[..i] == s;
    }
  }

  /**
   * Selection (dlulratio_scheduler.cpp:190-222; 340-379 and 552-598 for 40 and
   * 80 MHz), from share `i` on with `ruArray` pushed so far: push the class
   * each share picks unless that class's counter has reached its count in the
   * tone plan, stop when the array holds one entry per 26-tone unit or after
   * pushing the whole-channel class. The code keeps one counter per class;
   * here the counter is the count of that class in the array, which is what
   * the code's counters hold.
   */
  function SelectFrom(w: Width, shares: seq<nat>, i: nat, ruArray: seq<ToneClass>): seq<ToneClass>
    requires i <= |shares|
    decreases |shares| - i
  {
    if i == |shares| || |ruArray| >= Budget(w) then ruArray
    else match SelectedClass(w, shares[i])
      case None => SelectFrom(w, shares, i + 1, ruArray)
      case Some(c) =>
        if c == FullClass(w) then ruArray + [c]
        else if CountOf(ruArray, c) < NumRus(w, c) then SelectFrom(w, shares, i + 1, ruArray + [c])
        else SelectFrom(w, shares, i + 1, ruArray)
  }

  // The three ways the selection moves past share `i`, each as one equation.

  lemma SelectFromPass(w: Width, shares: seq<nat>, i: nat, acc: seq<ToneClass>)
    requires i < |shares| && |acc| < Budget(w)
    requires match SelectedClass(w, shares[i])
      case None => true
      case Some(c) => c != FullClass(w) && CountOf(acc, c) >= NumRus(w, c)
    ensures SelectFrom(w, shares, i, acc) == SelectFrom(w, shares, i + 1, acc)
  {
  }

  lemma SelectFromPush(w: Width, shares: seq<nat>, i: nat, acc: seq<ToneClass>, c: ToneClass)
    requires i < |shares| && |acc| < Budget(w) && SelectedClass(w, shares[i]) == Some(c)
    requires c != FullClass(w) && CountOf(acc, c) < NumRus(w, c)
    ensures SelectFrom(w, shares, i, acc) == SelectFrom(w, shares, i + 1, acc + [c])
  {
  }

  lemma SelectFromWhole(w: Width, shares: seq<nat>, i: nat, acc: seq<ToneClass>)
    requires i < |shares| && |acc| < Budget(w) && SelectedClass(w, shares[i]) == Some(FullClass(w))
    ensures SelectFrom(w, shares, i, acc) == acc + [FullClass(w)]
  {
  }

  /** The array of tone classes the selection pass builds from the shares. */
  function Selection(w: Width, shares: seq<nat>): seq<ToneClass>
  {
    SelectFrom(w, shares, 0, [])
  }

  lemma {:induction false} SelectFromSpec(w: Width, shares: seq<nat>, i: nat, acc: seq<ToneClass>)
    requires i <= |shares| && |acc| <= i && Sum(shares) <= Budget(w)
    requires AllInWidth(w, acc) && WithinCaps(w, acc) && FullClass(w) !in acc
    requires TotalCost(acc) <= Sum(shares[..i])
    ensures var r := SelectFrom(w, shares, i, acc);
      AllInWidth(w, r) && WithinCaps(w, r) && FullAlone(w, r) &&
      TotalCost(r) <= Budget(w) && |r| <= |shares|
    decreases |shares| - i
  {
    SumUpTo(shares, i);
    if i < |shares| && |acc| < Budget(w) {
      SumPrefix(shares, i);
      SelectedClassIsLargestFit(w, shares[i], Ru26);
      match SelectedClass(w, shares[i]) {
        case None =>
          SelectFromPass(w, shares, i, acc);
          SelectFromSpec(w, shares, i + 1, acc);
        case Some(c) =>
          if c == FullClass(w) {
            SelectFromWhole(w, shares, i, acc);
            ZeroCostEmpty(acc);
            assert acc + [c] == [c];
            RankCost(w, c);
          } else if CountOf(acc, c) < NumRus(w, c) {
            SelectFromPush(w, shares, i, acc, c);
            AddOne(w, acc, c);
            SelectFromSpec(w, shares, i + 1, acc + [c]);
          } else {
            SelectFromPass(w, shares, i, acc);
            SelectFromSpec(w, shares, i + 1, acc);
          }
      }
    }
  }

  /**
   * The selected array stays in the channel: every class belongs to it, no
   * class exceeds its count in the tone plan, the whole-channel class comes
   * alone, the array never costs more than the channel and has at most one
   * entry per share; a first share of the whole channel selects it alone.
   */
  lemma SelectionSpec(w: Width, shares: seq<nat>)
    requires Sum(shares) <= Budget(w)
    ensures var r := Selection(w, shares);
      AllInWidth(w, r) && WithinCaps(w, r) && FullAlone(w, r) &&
      TotalCost(r) <= Budget(w) && |r| <= |shares|
    ensures |shares| > 0 && shares[0] == Budget(w) ==> Selection(w, shares) == [FullClass(w)]
  {
    assert shares[..0] == [];
    SelectFromSpec(w, shares, 0, []);
    if |shares| > 0 && shares[0] == Budget(w) {
      SelectedClassIsLargestFit(w, shares[0], Ru26);
    }
  }

  lemma {:induction false} SelectFromOnlyPicks(w: Width, shares: seq<nat>, i: nat, acc: seq<ToneClass>)
    requires i <= |shares|
    ensures var r := SelectFrom(w, shares, i, acc);
      |acc| <= |r| && r[..|acc|] == acc && Subsequence(r[|acc|..], Picks(w, shares[i..]))
    decreases |shares| - i
  {
    var r := SelectFrom(w, shares, i, acc);
    if i == |shares| || |acc| >= Budget(w) {
      assert r[|acc|..] == [];
    } else {
      PicksAt(w, shares, i);
      var rest := Picks(w, shares[i + 1..]);
      match SelectedClass(w, shares[i]) {
        case None =>
          assert Picks(w, shares[i..]) == rest;
          SelectFromPass(w, shares, i, acc);
          SelectFromOnlyPicks(w, shares, i + 1, acc);
        case Some(c) =>
          assert Picks(w, shares[i..]) == [c] + rest;
          assert ([c] + rest)[1..] == rest;
          if c == FullClass(w) {
            SelectFromWhole(w, shares, i, acc);
            assert r[|acc|..] == [c] && [c][1..] == [];
          } else if CountOf(acc, c) < NumRus(w, c) {
            SelectFromPush(w, shares, i, acc, c);
            SelectFromOnlyPicks(w, shares, i + 1, acc + [c]);
            PushedPrefix(acc, c, r, rest);
          } else {
            SelectFromPass(w, shares, i, acc);
            SelectFromOnlyPicks(w, shares, i + 1, acc);
          }
      }
    }
  }

  /** An array that starts with `acc` and then `c` keeps `c` in front of what follows it. */
  lemma PushedPrefix(acc: seq<ToneClass>, c: ToneClass, r: seq<ToneClass>, rest: seq<ToneClass>)
    requires |acc| + 1 <= |r| && r[..|acc| + 1] == acc + [c] && Subsequence(r[|acc| + 1..], rest)
    ensures r[..|acc|] == acc && Subsequence(r[|acc|..], [c] + rest)
  {
    assert r[|acc|] == (acc + [c])[|acc|] == c;
    assert r[..|acc|] == (acc + [c])[..|acc|] == acc;
    assert r[|acc|..] == [c] + r[|acc| + 1..];
    SubsequenceCons(c, r[|acc| + 1..], rest);
  }

  /**
   * Every selected entry is the class some share picks, in share order: the
   * selection only ever leaves picks out.
   */
  lemma SelectionOnlyPicks(w: Width, shares: seq<nat>)
    ensures Subsequence(Selection(w, shares), Picks(w, shares))
  {
    SelectFromOnlyPicks(w, shares, 0, []);
    assert shares[0..] == shares;
    assert Selection(w, shares)[0..] == Selection(w, shares);
  }

  lemma {:induction false} SelectFromKeepsPicks(w: Width, shares: seq<nat>, i: nat, acc: seq<ToneClass>, all: seq<ToneClass>)
    requires i <= |shares|
    requires acc + Picks(w, shares[i..]) == all
    requires WithinCaps(w, all) && FullAlone(w, all) && TotalCost(all) <= Budget(w)
    ensures SelectFrom(w, shares, i, acc) == all
    decreases |shares| - i
  {
    var rest := Picks(w, shares[i..]);
    if i == |shares| {
      assert shares[i..] == [];
      assert acc == all;
    } else if |acc| >= Budget(w) {
      NothingLeftOver(acc, rest, all, Budget(w));
      assert acc == all;
    } else {
      PicksAt(w, shares, i);
      match SelectedClass(w, shares[i]) {
        case None =>
          SelectFromPass(w, shares, i, acc);
          SelectFromKeepsPicks(w, shares, i + 1, acc, all);
        case Some(c) =>
          KeepOnePick(w, acc, c, Picks(w, shares[i + 1..]), all);
          if c == FullClass(w) {
            SelectFromWhole(w, shares, i, acc);
          } else {
            SelectFromPush(w, shares, i, acc, c);
            SelectFromKeepsPicks(w, shares, i + 1, acc + [c], all);
          }
      }
    }
  }

  /** An array with one entry per unit of the budget leaves no room for anything after it. */
  lemma NothingLeftOver(acc: seq<ToneClass>, rest: seq<ToneClass>, all: seq<ToneClass>, budget: nat)
    requires acc + rest == all && TotalCost(all) <= budget <= |acc|
    ensures rest == []
  {
    TotalCostAppend(acc, rest);
    LengthCost(acc);
    ZeroCostEmpty(rest);
  }

  /** The next pick, in a picked array that fits, is either the lone whole channel or below its cap. */
  lemma KeepOnePick(w: Width, acc: seq<ToneClass>, c: ToneClass, tail: seq<ToneClass>, all: seq<ToneClass>)
    requires acc + ([c] + tail) == all
    requires WithinCaps(w, all) && FullAlone(w, all)
    ensures acc + [c] + tail == all
    ensures c == FullClass(w) ==> acc == [] && tail == []
    ensures c != FullClass(w) ==> CountOf(acc, c) < NumRus(w, c)
  {
    assert all[|acc|] == c;
    if c != FullClass(w) {
      CountAppend(acc, [c] + tail, c);
    }
  }

  /**
   * When the picks respect the tone plan's counts and the whole channel is
   * picked only alone, the selection keeps every pick: no share is skipped
   * except at its class's cap.
   */
  lemma SelectionKeepsEveryPick(w: Width, shares: seq<nat>)
    requires Sum(shares) <= Budget(w)
    requires WithinCaps(w, Picks(w, shares)) && FullAlone(w, Picks(w, shares))
    ensures Selection(w, shares) == Picks(w, shares)
  {
    PicksCost(w, shares);
    assert shares[0..] == shares;
    SelectFromKeepsPicks(w, shares, 0, [], Picks(w, shares));
  }

  /** A count that stops at the tone plan's count of its class. */
  function Capped(n: nat, cap: nat): nat
  {
    if n < cap then n else cap
  }

  lemma {:induction false} CountNotIn(s: seq<ToneClass>, c: ToneClass)
    requires c !in s
    ensures CountOf(s, c) == 0
  {
    if s != [] {
      CountNotIn(s[1..], c);
    }
  }

  /** The shares from `i` on picks nothing once they add up to nothing. */
  lemma NoPicksLeft(w: Width, s: seq<nat>)
    requires Sum(s) == 0
    ensures Picks(w, s) == []
  {
    PicksCost(w, s);
    ZeroCostEmpty(Picks(w, s));
  }

  /** What the selection from share `i` on keeps of class `c`, the count `acc` already holds included. */
  predicate KeepsCapped(w: Width, shares: seq<nat>, i: nat, acc: seq<ToneClass>, c: ToneClass)
    requires i <= |shares|
  {
    CountOf(SelectFrom(w, shares, i, acc), c) ==
      Capped(CountOf(acc, c) + CountOf(Picks(w, shares[i..]), c), NumRus(w, c))
  }

  lemma {:induction false} SelectFromCounts(w: Width, shares: seq<nat>, i: nat, acc: seq<ToneClass>, c: ToneClass)
    requires i <= |shares| && TotalCost(acc) + Sum(shares[i..]) <= Budget(w)
    requires FullClass(w) !in acc && CountOf(acc, c) <= NumRus(w, c)
    ensures KeepsCapped(w, shares, i, acc, c)
    decreases |shares| - i
  {
    if i == |shares| {
      assert shares[i..] == [];
    } else if |acc| >= Budget(w) {
      LengthCost(acc);
      NoPicksLeft(w, shares[i..]);
    } else {
      assert shares[i..][1..] == shares[i + 1..];
      assert Sum(shares[i..]) == shares[i] + Sum(shares[i + 1..]);
      SelectedClassIsLargestFit(w, shares[i], Ru26);
      match SelectedClass(w, shares[i]) {
        case None =>
          SelectFromCounts(w, shares, i + 1, acc, c);
          CountsPass(w, shares, i, acc, c);
        case Some(d) =>
          if d == FullClass(w) {
            NoPicksLeft(w, shares[i + 1..]);
            CountsWhole(w, shares, i, acc, c);
          } else if CountOf(acc, d) < NumRus(w, d) {
            TotalCostAppend(acc, [d]);
            CountAppend(acc, [d], c);
            SelectFromCounts(w, shares, i + 1, acc + [d], c);
            CountsPush(w, shares, i, acc, c, d);
          } else {
            SelectFromCounts(w, shares, i + 1, acc, c);
            CountsPass(w, shares, i, acc, c);
          }
      }
    }
  }

  /** A share that picks nothing, or a class at its cap, keeps the count as it is. */
  lemma CountsPass(w: Width, shares: seq<nat>, i: nat, acc: seq<ToneClass>, c: ToneClass)
    requires i < |shares| && |acc| < Budget(w) && CountOf(acc, c) <= NumRus(w, c)
    requires match SelectedClass(w, shares[i])
      case None => true
      case Some(d) => d != FullClass(w) && CountOf(acc, d) >= NumRus(w, d)
    requires KeepsCapped(w, shares, i + 1, acc, c)
    ensures KeepsCapped(w, shares, i, acc, c)
  {
    SelectFromPass(w, shares, i, acc);
    PicksAt(w, shares, i);
    var rest := Picks(w, shares[i + 1..]);
    match SelectedClass(w, shares[i]) {
      case None =>
        assert Picks(w, shares[i..]) == rest;
      case Some(d) =>
        assert Picks(w, shares[i..]) == [d] + rest;
        assert ([d] + rest)[1..] == rest;
    }
  }

  /** A class below its cap is pushed and counted. */
  lemma CountsPush(w: Width, shares: seq<nat>, i: nat, acc: seq<ToneClass>, c: ToneClass, d: ToneClass)
    requires i < |shares| && |acc| < Budget(w) && SelectedClass(w, shares[i]) == Some(d)
    requires d != FullClass(w) && CountOf(acc, d) < NumRus(w, d)
    requires CountOf(acc + [d], c) == CountOf(acc, c) + (if d == c then 1 else 0)
    requires KeepsCapped(w, shares, i + 1, acc + [d], c)
    ensures KeepsCapped(w, shares, i, acc, c)
  {
    SelectFromPush(w, shares, i, acc, d);
    PicksAt(w, shares, i);
    var rest := Picks(w, shares[i + 1..]);
    assert Picks(w, shares[i..]) == [d] + rest;
    assert ([d] + rest)[1..] == rest;
  }

  /** The whole channel, picked by the last share that holds anything, ends the selection. */
  lemma CountsWhole(w: Width, shares: seq<nat>, i: nat, acc: seq<ToneClass>, c: ToneClass)
    requires i < |shares| && |acc| < Budget(w) && SelectedClass(w, shares[i]) == Some(FullClass(w))
    requires FullClass(w) !in acc && CountOf(acc, c) <= NumRus(w, c)
    requires Picks(w, shares[i + 1..]) == []
    ensures KeepsCapped(w, shares, i, acc, c)
  {
    var d := FullClass(w);
    SelectFromWhole(w, shares, i, acc);
    PicksAt(w, shares, i);
    assert Picks(w, shares[i..]) == [d];
    CountAppend(acc, [d], c);
    RankCost(w, d);
    if c == d {
      CountNotIn(acc, d);
    }
  }

  /**
   * A share is left out only at its class's cap: the selection keeps, of
   * every class, as many picks as the tone plan has RUs of it, and no more.
   */
  lemma SelectionCapsPicks(w: Width, shares: seq<nat>, c: ToneClass)
    requires Sum(shares) <= Budget(w)
    ensures CountOf(Selection(w, shares), c) == Capped(CountOf(Picks(w, shares), c), NumRus(w, c))
  {
    assert shares[0..] == shares;
    SelectFromCounts(w, shares, 0, [], c);
  }

  /**
   * The selection loop of dlulratio_scheduler.cpp:190-222 (340-379, 552-598),
   * returning the array and the units still unspent.
   */
  method Select(w: Width, shares: seq<nat>) returns (ruArray: seq<ToneClass>, remaining: int)
    requires Sum(shares) <= Budget(w)
    ensures ruArray == Selection(w, shares)
    ensures AllInWidth(w, ruArray) && WithinCaps(w, ruArray) && FullAlone(w, ruArray)
    ensures TotalCost(ruArray) + remaining == Budget(w) && remaining >= 0
    ensures |ruArray| <= |shares|
    ensures |shares| > 0 && shares[0] == Budget(w) ==> ruArray == [FullClass(w)]
  {
    ruArray := [];
    remaining := Budget(w);
    var i := 0;
    while i < |shares|
      invariant 0 <= i <= |shares|
      invariant SelectFrom(w, shares, i, ruArray) == Selection(w, shares)
      invariant TotalCost(ruArray) + remaining == Budget(w)
    {
      if |ruArray| >= Budget(w) {
        break;
      }
      match SelectedClass(w, shares[i]) {
        case None =>
        case Some(c) =>
          if c == FullClass(w) {
            TotalCostAppend(ruArray, [c]);
            ruArray := ruArray + [c];
            remaining := remaining - Cost(c);
            break;
          }
          if CountOf(ruArray, c) < NumRus(w, c) {
            TotalCostAppend(ruArray, [c]);
            ruArray := ruArray + [c];
            remaining := remaining - Cost(c);
          }
      }
      i := i + 1;
    }
    SelectionSpec(w, shares);
  }

  /** Appending a class below its count keeps the caps, the width and the cost sum. */
  lemma AddOne(w: Width, s: seq<ToneClass>, c: ToneClass)
    requires WithinCaps(w, s) && AllInWidth(w, s) && InWidth(w, c) && c != FullClass(w)
    requires CountOf(s, c) < NumRus(w, c)
    ensures WithinCaps(w, s + [c]) && AllInWidth(w, s + [c])
    ensures TotalCost(s + [c]) == TotalCost(s) + Cost(c)
    ensures FullClass(w) !in s ==> FullClass(w) !in s + [c]
  {
    TotalCostAppend(s, [c]);
    forall d | d != FullClass(w)
      ensures CountOf(s + [c], d) <= NumRus(w, d)
    {
      CountAppend(s, [c], d);
    }
  }

  // ---------------------------------------------------------------------
  // Correction
  // ---------------------------------------------------------------------

  /**
   * One guarded upgrade of the correction pass: either to the whole-channel
   * class, or to `target`, refused when the counter of `capClass` has reached
   * `cap`. `threshold` is both the unspent units the guard asks for and the
   * units the upgrade spends.
   */
  datatype Upgrade =
    | ToFull(threshold: nat)
    | Partial(target: ToneClass, threshold: nat, capClass: ToneClass, cap: nat)

  /**
   * The guards of the correction pass in the order the code tests them
   * (dlulratio_scheduler.cpp:223-270 for 20 MHz, 381-458 for 40 MHz,
   * 599-706 for 80 MHz). At 80 MHz the 106 -> 484 upgrade is refused on the
   * 242-tone counter, as the code writes it.
   */
  function Upgrades(w: Width, c: ToneClass): seq<Upgrade>
  {
    match (w, c)
    case (W20, Ru106) => [ToFull(5)]
    case (W20, Ru52) => [ToFull(7), Partial(Ru106, 2, Ru106, 2)]
    case (W20, Ru26) => [ToFull(8), Partial(Ru106, 3, Ru106, 2), Partial(Ru52, 1, Ru52, 4)]
    case (W40, Ru242) => [ToFull(9)]
    case (W40, Ru106) => [ToFull(14), Partial(Ru242, 5, Ru242, 2)]
    case (W40, Ru52) => [ToFull(16), Partial(Ru242, 7, Ru242, 2), Partial(Ru106, 2, Ru106, 4)]
    case (W40, Ru26) =>
      [ToFull(17), Partial(Ru242, 8, Ru242, 2), Partial(Ru106, 3, Ru106, 4), Partial(Ru52, 1, Ru52, 8)]
    case (W80, Ru484) => [ToFull(19)]
    case (W80, Ru242) => [ToFull(28), Partial(Ru484, 9, Ru484, 2)]
    case (W80, Ru106) => [ToFull(33), Partial(Ru484, 14, Ru242, 2), Partial(Ru242, 5, Ru242, 4)]
    case (W80, Ru52) =>
      [ToFull(35), Partial(Ru484, 16, Ru484, 2), Partial(Ru242, 7, Ru242, 4), Partial(Ru106, 2, Ru106, 8)]
    case (W80, Ru26) =>
      [ToFull(36), Partial(Ru484, 17, Ru484, 2), Partial(Ru242, 8, Ru242, 4),
       Partial(Ru106, 3, Ru106, 8), Partial(Ru52, 1, Ru52, 16)]
    case _ => []
  }

  function TargetOf(w: Width, u: Upgrade): ToneClass
  {
    match u
    case ToFull(_) => FullClass(w)
    case Partial(t, _, _, _) => t
  }

  /**
   * The guard table is the cost table: every class of the channel below the
   * whole channel is offered every larger class of the channel, largest
   * first; each guard asks for exactly the cost difference; each cap is the
   * tone-plan count of the class it checks, and that class is the target
   * except for the one 80 MHz quirk.
   */
  lemma UpgradeTableSound(w: Width, c: ToneClass, k: nat)
    requires k < |Upgrades(w, c)|
    ensures InWidth(w, c) && c != FullClass(w)
    ensures |Upgrades(w, c)| == Rank(FullClass(w)) - Rank(c)
    ensures Rank(TargetOf(w, Upgrades(w, c)[k])) == Rank(FullClass(w)) - k
    ensures Upgrades(w, c)[k].threshold == Cost(TargetOf(w, Upgrades(w, c)[k])) - Cost(c)
    ensures Upgrades(w, c)[k].Partial? ==>
      var u := Upgrades(w, c)[k];
      k > 0 && u.cap == NumRus(w, u.target) &&
      (u.capClass == u.target || (w == W80 && c == Ru106 && u.target == Ru484 && u.capClass == Ru242))
    ensures Upgrades(w, c)[k].ToFull? <==> k == 0
  {
  }

  lemma NoUpgradesAtTop(w: Width, c: ToneClass)
    requires InWidth(w, c) && c != FullClass(w)
    ensures |Upgrades(w, c)| == Rank(FullClass(w)) - Rank(c)
  {
  }

  /** The first upgrade whose guard holds for the unspent units. */
  function FirstApplicable(ups: seq<Upgrade>, remaining: int): (r: Option<Upgrade>)
    ensures r.Some? ==> r.value in ups && remaining >= r.value.threshold
    ensures r.None? ==> forall u :: u in ups ==> remaining < u.threshold
  {
    if ups == [] then None
    else if remaining >= ups[0].threshold then Some(ups[0])
    else FirstApplicable(ups[1..], remaining)
  }

  /**
   * The guard cascade the code runs on one entry, written as the code
   * writes it: the first guard whose threshold the unspent units meet.
   */
  function Guard(w: Width, c: ToneClass, remaining: int): Option<Upgrade>
  {
    match w
    case W20 =>
      (match c
       case Ru106 => if remaining >= 5 then Some(ToFull(5)) else None
       case Ru52 =>
         if remaining >= 7 then Some(ToFull(7))
         else if remaining >= 2 then Some(Partial(Ru106, 2, Ru106, 2))
         else None
       case Ru26 =>
         if remaining >= 8 then Some(ToFull(8))
         else if remaining >= 3 then Some(Partial(Ru106, 3, Ru106, 2))
         else if remaining >= 1 then Some(Partial(Ru52, 1, Ru52, 4))
         else None
       case _ => None)
    case W40 =>
      (match c
       case Ru242 => if remaining >= 9 then Some(ToFull(9)) else None
       case Ru106 =>
         if remaining >= 14 then Some(ToFull(14))
         else if remaining >= 5 then Some(Partial(Ru242, 5, Ru242, 2))
         else None
       case Ru52 =>
         if remaining >= 16 then Some(ToFull(16))
         else if remaining >= 7 then Some(Partial(Ru242, 7, Ru242, 2))
         else if remaining >= 2 then Some(Partial(Ru106, 2, Ru106, 4))
         else None
       case Ru26 =>
         if remaining >= 17 then Some(ToFull(17))
         else if remaining >= 8 then Some(Partial(Ru242, 8, Ru242, 2))
         else if remaining >= 3 then Some(Partial(Ru106, 3, Ru106, 4))
         else if remaining >= 1 then Some(Partial(Ru52, 1, Ru52, 8))
         else None
       case _ => None)
    case W80 =>
      (match c
       case Ru484 => if remaining >= 19 then Some(ToFull(19)) else None
       case Ru242 =>
         if remaining >= 28 then Some(ToFull(28))
         else if remaining >= 9 then Some(Partial(Ru484, 9, Ru484, 2))
         else None
       case Ru106 =>
         if remaining >= 33 then Some(ToFull(33))
         else if remaining >= 14 then Some(Partial(Ru484, 14, Ru242, 2))
         else if remaining >= 5 then Some(Partial(Ru242, 5, Ru242, 4))
         else None
       case Ru52 =>
         if remaining >= 35 then Some(ToFull(35))
         else if remaining >= 16 then Some(Partial(Ru484, 16, Ru484, 2))
         else if remaining >= 7 then Some(Partial(Ru242, 7, Ru242, 4))
         else if remaining >= 2 then Some(Partial(Ru106, 2, Ru106, 8))
         else None
       case Ru26 =>
         if remaining >= 36 then Some(ToFull(36))
         else if remaining >= 17 then Some(Partial(Ru484, 17, Ru484, 2))
         else if remaining >= 8 then Some(Partial(Ru242, 8, Ru242, 4))
         else if remaining >= 3 then Some(Partial(Ru106, 3, Ru106, 8))
         else if remaining >= 1 then Some(Partial(Ru52, 1, Ru52, 16))
         else None
       case _ => None)
  }

  /** The cascade picks the first upgrade of the ordered guard table that applies. */
  lemma GuardIsFirst(w: Width, c: ToneClass, remaining: int)
    ensures Guard(w, c, remaining) == FirstApplicable(Upgrades(w, c), remaining)
  {
    var ups := Upgrades(w, c);
    if |ups| > 1 {
      assert FirstApplicable(ups, remaining) ==
        if remaining >= ups[0].threshold then Some(ups[0]) else FirstApplicable(ups[1..], remaining);
      if |ups| > 2 {
        assert FirstApplicable(ups[1..], remaining) ==
          if remaining >= ups[1].threshold then Some(ups[1]) else FirstApplicable(ups[2..], remaining);
        if |ups| > 3 {
          assert FirstApplicable(ups[2..], remaining) ==
            if remaining >= ups[2].threshold then Some(ups[2]) else FirstApplicable(ups[3..], remaining);
          if |ups| > 4 {
            assert FirstApplicable(ups[3..], remaining) ==
              if remaining >= ups[3].threshold then Some(ups[3]) else FirstApplicable(ups[4..], remaining);
          }
        }
      }
    }
  }

  lemma FromTable(w: Width, c: ToneClass, u: Upgrade)
    requires u in Upgrades(w, c)
    ensures InWidth(w, c) && c != FullClass(w)
    ensures u.threshold == Cost(TargetOf(w, u)) - Cost(c)
    ensures Rank(c) < Rank(TargetOf(w, u)) && InWidth(w, TargetOf(w, u))
    ensures u.ToFull? || TargetOf(w, u) != FullClass(w)
    ensures u.Partial? ==> (u.cap == NumRus(w, u.target) &&
      (u.capClass == u.target || (w == W80 && u.target == Ru484)))
  {
    var k :| 0 <= k < |Upgrades(w, c)| && Upgrades(w, c)[k] == u;
    UpgradeTableSound(w, c, k);
  }

  /** What the guard table promises of the upgrade the cascade picks. */
  lemma GuardFacts(w: Width, c: ToneClass, remaining: int, u: Upgrade)
    requires Guard(w, c, remaining) == Some(u)
    ensures remaining >= u.threshold && InWidth(w, c) && c != FullClass(w)
    ensures u.threshold == Cost(TargetOf(w, u)) - Cost(c)
    ensures Rank(c) < Rank(TargetOf(w, u)) && InWidth(w, TargetOf(w, u))
    ensures u.ToFull? || TargetOf(w, u) != FullClass(w)
    ensures u.Partial? ==> (u.cap == NumRus(w, u.target) &&
      (u.capClass == u.target || (w == W80 && u.target == Ru484)))
    ensures UpgradedFrom(w, c, TargetOf(w, u))
  {
    GuardIsFirst(w, c, remaining);
    FromTable(w, c, u);
  }

  /**
   * Correction (dlulratio_scheduler.cpp:223-270; 381-458 and 599-706 for 40
   * and 80 MHz), from entry `i` on with `remaining` units unspent: for each
   * entry, the first guard that holds decides. An upgrade to the whole
   * channel ends the pass without charging the units; a capped upgrade skips
   * the entry without trying smaller targets; any other upgrade is charged
   * and the pass goes on.
   */
  function CorrectFrom(w: Width, ruArray: seq<ToneClass>, remaining: int, i: nat): seq<ToneClass>
    requires i <= |ruArray|
    decreases |ruArray| - i
  {
    if i == |ruArray| then ruArray
    else match Guard(w, ruArray[i], remaining)
      case None => CorrectFrom(w, ruArray, remaining, i + 1)
      case Some(u) =>
        if u.ToFull? then ruArray[i := FullClass(w)]
        else if CountOf(ruArray, u.capClass) >= u.cap then CorrectFrom(w, ruArray, remaining, i + 1)
        else CorrectFrom(w, ruArray[i := u.target], remaining - u.threshold, i + 1)
  }

  /** The array after the correction pass, given the units the selection left unspent. */
  function Correction(w: Width, ruArray: seq<ToneClass>, remaining: int): seq<ToneClass>
  {
    CorrectFrom(w, ruArray, remaining, 0)
  }

  // The three ways the pass moves past entry `i`, each as one equation.

  lemma CorrectFromSkip(w: Width, a: seq<ToneClass>, remaining: int, i: nat)
    requires i < |a|
    requires match Guard(w, a[i], remaining)
      case None => true
      case Some(u) => u.Partial? && CountOf(a, u.capClass) >= u.cap
    ensures CorrectFrom(w, a, remaining, i) == CorrectFrom(w, a, remaining, i + 1)
  {
  }

  lemma CorrectFromWiden(w: Width, a: seq<ToneClass>, remaining: int, i: nat, u: Upgrade)
    requires i < |a| && Guard(w, a[i], remaining) == Some(u) && u.ToFull?
    ensures CorrectFrom(w, a, remaining, i) == a[i := FullClass(w)]
  {
  }

  lemma CorrectFromCharge(w: Width, a: seq<ToneClass>, remaining: int, i: nat, u: Upgrade)
    requires i < |a| && Guard(w, a[i], remaining) == Some(u) && u.Partial?
    requires CountOf(a, u.capClass) < u.cap
    ensures CorrectFrom(w, a, remaining, i) == CorrectFrom(w, a[i := u.target], remaining - u.threshold, i + 1)
  {
  }

  /** `d` is `c`, or a class the guard table offers `c` as an upgrade. */
  predicate UpgradedFrom(w: Width, c: ToneClass, d: ToneClass)
  {
    d == c || exists u :: u in Upgrades(w, c) && TargetOf(w, u) == d
  }

  /** What holds of the array each time the correction reaches entry `i`. */
  predicate CorrectInv(w: Width, orig: seq<ToneClass>, cur: seq<ToneClass>, remaining: int, i: nat)
  {
    i <= |cur| == |orig| &&
    AllInWidth(w, cur) && WithinCaps(w, cur) && FullAlone(w, cur) &&
    (FullClass(w) in cur ==> cur == orig) &&
    TotalCost(cur) + remaining == Budget(w) && remaining >= 0 &&
    TotalCost(orig) <= TotalCost(cur) &&
    (forall k :: i <= k < |cur| ==> cur[k] == orig[k]) &&
    (forall k :: 0 <= k < i ==> UpgradedFrom(w, orig[k], cur[k]))
  }

  /** What the correction promises of its result `r` against the selection `orig`. */
  predicate CorrectedWell(w: Width, orig: seq<ToneClass>, r: seq<ToneClass>)
  {
    |r| == |orig| && AllInWidth(w, r) && WithinCaps(w, r) && FullAlone(w, r) &&
    TotalCost(orig) <= TotalCost(r) <= Budget(w) &&
    forall k :: 0 <= k < |r| ==> UpgradedFrom(w, orig[k], r[k])
  }

  /** Passing over an entry without upgrading it keeps the invariant. */
  lemma SkipStep(w: Width, orig: seq<ToneClass>, cur: seq<ToneClass>, remaining: int, i: nat)
    requires CorrectInv(w, orig, cur, remaining, i) && i < |cur|
    ensures CorrectInv(w, orig, cur, remaining, i + 1)
  {
    assert UpgradedFrom(w, orig[i], cur[i]);
  }

  /** At the end of the array the invariant is the promise. */
  lemma EndStep(w: Width, orig: seq<ToneClass>, cur: seq<ToneClass>, remaining: int)
    requires CorrectInv(w, orig, cur, remaining, |cur|)
    ensures CorrectedWell(w, orig, cur)
  {
  }

  /** Widening an entry to the whole channel ends the pass with a well-corrected array. */
  lemma FullStep(w: Width, orig: seq<ToneClass>, cur: seq<ToneClass>, remaining: int, i: nat, u: Upgrade)
    requires CorrectInv(w, orig, cur, remaining, i) && i < |cur|
    requires Guard(w, cur[i], remaining) == Some(u) && u.ToFull?
    ensures CorrectedWell(w, orig, cur[i := FullClass(w)])
  {
    var c := cur[i];
    GuardFacts(w, c, remaining, u);
    assert FullClass(w) !in cur;
    EntryCost(cur, i);
    var r := cur[i := FullClass(w)];
    assert r == [FullClass(w)] && orig == [c];
    TotalCostUpdate(cur, 0, FullClass(w));
    RankCost(w, c);
    assert UpgradedFrom(w, orig[0], r[0]);
  }

  /** A charged upgrade within its cap keeps the invariant at the next entry. */
  lemma UpgradeStep(w: Width, orig: seq<ToneClass>, cur: seq<ToneClass>, remaining: int, i: nat, u: Upgrade)
    requires CorrectInv(w, orig, cur, remaining, i) && i < |cur|
    requires Guard(w, cur[i], remaining) == Some(u) && u.Partial?
    requires CountOf(cur, u.capClass) < u.cap
    ensures CorrectInv(w, orig, cur[i := u.target], remaining - u.threshold, i + 1)
  {
    GuardFacts(w, cur[i], remaining, u);
    assert FullClass(w) !in cur;
    UpgradeOne(w, cur, i, u.target, u.capClass);
    EntryCost(cur, i);
  }

  /**
   * One entry of the pass: either it ends the pass with a well-corrected
   * array, or it moves to the next entry with the invariant kept.
   */
  lemma CorrectNext(w: Width, orig: seq<ToneClass>, cur: seq<ToneClass>, remaining: int, i: nat)
    returns (done: bool, next: seq<ToneClass>, left: int)
    requires CorrectInv(w, orig, cur, remaining, i) && i < |cur|
    ensures done ==> CorrectedWell(w, orig, CorrectFrom(w, cur, remaining, i))
    ensures !done ==> CorrectInv(w, orig, next, left, i + 1)
    ensures !done ==> CorrectFrom(w, cur, remaining, i) == CorrectFrom(w, next, left, i + 1)
  {
    done, next, left := false, cur, remaining;
    match Guard(w, cur[i], remaining) {
      case None =>
        CorrectFromSkip(w, cur, remaining, i);
        SkipStep(w, orig, cur, remaining, i);
      case Some(u) =>
        if u.ToFull? {
          CorrectFromWiden(w, cur, remaining, i, u);
          FullStep(w, orig, cur, remaining, i, u);
          done := true;
        } else if CountOf(cur, u.capClass) >= u.cap {
          CorrectFromSkip(w, cur, remaining, i);
          SkipStep(w, orig, cur, remaining, i);
        } else {
          CorrectFromCharge(w, cur, remaining, i, u);
          UpgradeStep(w, orig, cur, remaining, i, u);
          next, left := cur[i := u.target], remaining - u.threshold;
        }
    }
  }

  lemma {:induction false} CorrectFromSpec(w: Width, orig: seq<ToneClass>, cur: seq<ToneClass>, remaining: int, i: nat)
    requires CorrectInv(w, orig, cur, remaining, i)
    ensures CorrectedWell(w, orig, CorrectFrom(w, cur, remaining, i))
    decreases |cur| - i
  {
    if i == |cur| {
      EndStep(w, orig, cur, remaining);
    } else {
      var done, next, left := CorrectNext(w, orig, cur, remaining, i);
      if !done {
        CorrectFromSpec(w, orig, next, left, i + 1);
      }
    }
  }

  /**
   * The corrected array keeps the selected one's length and stays in the
   * channel (classes of the channel, within the tone plan's counts, the
   * whole channel alone, never costing more than the channel); it costs at
   * least as much as the selection, and every entry is either unchanged or
   * one of the upgrades the guard table offers its class, so never smaller.
   */
  lemma CorrectionSpec(w: Width, ruArray: seq<ToneClass>, remaining: int)
    requires AllInWidth(w, ruArray) && WithinCaps(w, ruArray) && FullAlone(w, ruArray)
    requires TotalCost(ruArray) + remaining == Budget(w) && remaining >= 0
    ensures var r := Correction(w, ruArray, remaining);
      |r| == |ruArray| && AllInWidth(w, r) && WithinCaps(w, r) && FullAlone(w, r) &&
      TotalCost(ruArray) <= TotalCost(r) <= Budget(w) &&
      (forall k :: 0 <= k < |r| ==> UpgradedFrom(w, ruArray[k], r[k])) &&
      (forall k :: 0 <= k < |r| ==> Rank(ruArray[k]) <= Rank(r[k]))
  {
    CorrectFromSpec(w, ruArray, ruArray, remaining, 0);
    var r := Correction(w, ruArray, remaining);
    forall k | 0 <= k < |r|
      ensures Rank(ruArray[k]) <= Rank(r[k])
    {
      if r[k] != ruArray[k] {
        var u :| u in Upgrades(w, ruArray[k]) && TargetOf(w, u) == r[k];
        FromTable(w, ruArray[k], u);
      }
    }
  }

  /**
   * A lone selected entry of the channel, with the rest of the channel
   * unspent, is widened to the whole channel (the whole channel itself is
   * left as it is).
   */
  lemma LoneEntryWidens(w: Width, c: ToneClass)
    requires InWidth(w, c)
    ensures Correction(w, [c], Budget(w) - Cost(c)) == [FullClass(w)]
  {
    RankCost(w, c);
    if c != FullClass(w) {
      UpgradeTableSound(w, c, 0);
      var ups := Upgrades(w, c);
      assert FirstApplicable(ups, Budget(w) - Cost(c)) == Some(ups[0]);
      assert [c][0 := FullClass(w)] == [FullClass(w)];
    } else {
      assert Upgrades(w, c) == [];
      assert CorrectFrom(w, [c], 0, 1) == [c];
    }
  }

  lemma {:induction false} CorrectFromIdle(w: Width, ruArray: seq<ToneClass>, remaining: int, i: nat)
    requires i <= |ruArray|
    requires forall k :: 0 <= k < |ruArray| ==> Guard(w, ruArray[k], remaining).None?
    ensures CorrectFrom(w, ruArray, remaining, i) == ruArray
    decreases |ruArray| - i
  {
    if i < |ruArray| {
      CorrectFromSkip(w, ruArray, remaining, i);
      CorrectFromIdle(w, ruArray, remaining, i + 1);
    }
  }

  /** When the unspent units meet no guard of any entry, the correction changes nothing. */
  lemma CorrectionIdle(w: Width, ruArray: seq<ToneClass>, remaining: int)
    requires forall k :: 0 <= k < |ruArray| ==> Guard(w, ruArray[k], remaining).None?
    ensures Correction(w, ruArray, remaining) == ruArray
  {
    CorrectFromIdle(w, ruArray, remaining, 0);
  }

  /** The correction loop of dlulratio_scheduler.cpp:223-270 (381-458, 599-706). */
  method Correct(w: Width, ruArray0: seq<ToneClass>, remaining0: int) returns (ruArray: seq<ToneClass>)
    requires AllInWidth(w, ruArray0) && WithinCaps(w, ruArray0) && FullAlone(w, ruArray0)
    requires TotalCost(ruArray0) + remaining0 == Budget(w) && remaining0 >= 0
    ensures ruArray == Correction(w, ruArray0, remaining0)
    ensures |ruArray| == |ruArray0|
    ensures AllInWidth(w, ruArray) && WithinCaps(w, ruArray) && FullAlone(w, ruArray)
    ensures TotalCost(ruArray0) <= TotalCost(ruArray) <= Budget(w)
    ensures forall k :: 0 <= k < |ruArray| ==> Rank(ruArray0[k]) <= Rank(ruArray[k])
    ensures ruArray0 == [FullClass(w)] ==> ruArray == ruArray0
  {
    ruArray := ruArray0;
    var remaining := remaining0;
    var i := 0;
    while i < |ruArray|
      invariant 0 <= i <= |ruArray| == |ruArray0|
      invariant CorrectFrom(w, ruArray, remaining, i) == Correction(w, ruArray0, remaining0)
    {
      var c := ruArray[i];
      match Guard(w, c, remaining)
      case None =>
        CorrectFromSkip(w, ruArray, remaining, i);
        i := i + 1;
      case Some(u) =>
        if u.ToFull? {
          CorrectFromWiden(w, ruArray, remaining, i, u);
          ruArray := ruArray[i := FullClass(w)];
          break;
        } else if CountOf(ruArray, u.capClass) >= u.cap {
          CorrectFromSkip(w, ruArray, remaining, i);
          i := i + 1;
        } else {
          CorrectFromCharge(w, ruArray, remaining, i, u);
          ruArray := ruArray[i := u.target];
          remaining := remaining - u.threshold;
          i := i + 1;
        }
    }
    CorrectionSpec(w, ruArray0, remaining0);
  }

  /** A charged upgrade keeps the width, the caps and the cost ledger. */
  lemma UpgradeOne(w: Width, s: seq<ToneClass>, i: nat, t: ToneClass, capClass: ToneClass)
    requires i < |s| && AllInWidth(w, s) && WithinCaps(w, s) && FullClass(w) !in s
    requires InWidth(w, t) && t != FullClass(w) && Rank(s[i]) < Rank(t)
    requires capClass == t || (w == W80 && t == Ru484)
    requires capClass == t ==> CountOf(s, t) < NumRus(w, t)
    requires TotalCost(s) - Cost(s[i]) + Cost(t) <= Budget(w)
    ensures AllInWidth(w, s[i := t]) && FullClass(w) !in s[i := t]
    ensures TotalCost(s[i := t]) == TotalCost(s) - Cost(s[i]) + Cost(t)
    ensures WithinCaps(w, s[i := t])
  {
    TotalCostUpdate(s, i, t);
    forall d | d != FullClass(w)
      ensures CountOf(s[i := t], d) <= NumRus(w, d)
    {
      CountUpdate(s, i, t, d);
      if d == t && capClass != t {
        CountCost(s[i := t], d);
      }
    }
  }
}
