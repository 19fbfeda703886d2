/**
 * `prop_scheduler_fun` end to end: shares, selection, correction and
 * placement for a 20, 40 or 80 MHz channel; any other width gets no RUs.
 */
module PropScheduler {
  import opened Wrappers
  import opened HeRu
  import opened RuPacker
  import opened RuPlacement

  /**
   * What the packer promises of an allocation for a channel: every RU index
   * exists in the tone plan, the RUs together use no more 26-tone units than
   * the channel has, and no class is handed out more often than the tone plan
   * has RUs of it.
   */
  predicate ValidAllocation(w: Width, allocation: seq<Ru>)
  {
    (forall k :: 0 <= k < |allocation| ==> ValidIndex(w, allocation[k])) &&
    TotalCost(Classes(allocation)) <= Budget(w) &&
    WithinCaps(w, Classes(allocation))
  }

  /**
   * The allocation `prop_scheduler_fun` (dlulratio_scheduler.cpp:153-800)
   * returns for a channel of `chWidth` MHz; any width other than 20, 40 and
   * 80 MHz gets no RUs.
   */
  function Pack(demands: seq<nat>, chWidth: nat): seq<Ru>
    requires chWidth in {20, 40, 80} ==> Sum(demands) > 0
  {
    match WidthOf(chWidth)
    case None => []
    case Some(w) => PackIn(w, demands)
  }

  /**
   * The demands become shares of the channel's 26-tone units, the shares an
   * array of tone classes, the unspent units enlarge that array, and the
   * array is laid out on the channel.
   */
  function PackIn(w: Width, demands: seq<nat>): seq<Ru>
    requires Sum(demands) > 0
  {
    Placement(w, Corrected(w, Selection(w, SharesOf(demands, Budget(w)))))
  }

  /** The correction pass, given the units the selection left unspent. */
  function Corrected(w: Width, selected: seq<ToneClass>): seq<ToneClass>
  {
    Correction(w, selected, Budget(w) - TotalCost(selected))
  }

  lemma CorrectedIs(w: Width, selected: seq<ToneClass>, corrected: seq<ToneClass>)
    requires Correction(w, selected, Budget(w) - TotalCost(selected)) == corrected
    ensures Corrected(w, selected) == corrected
  {
  }

  /**
   * For a 20, 40 or 80 MHz channel the allocation uses RU indices the tone
   * plan has, no more 26-tone units than the channel and no class more often
   * than the tone plan has it; there is at most one RU per candidate, and a
   * lone candidate gets the whole channel. Any other width gets no RUs.
   */
  lemma PackSpec(demands: seq<nat>, chWidth: nat)
    requires chWidth in {20, 40, 80} ==> Sum(demands) > 0
    ensures WidthOf(chWidth).None? ==> Pack(demands, chWidth) == []
    ensures WidthOf(chWidth).Some? ==> ValidAllocation(WidthOf(chWidth).value, Pack(demands, chWidth))
    ensures |Pack(demands, chWidth)| <= |demands|
    ensures WidthOf(chWidth).Some? && |demands| == 1 ==>
      Pack(demands, chWidth) == [Ru(FullClass(WidthOf(chWidth).value), 1)]
  {
    if WidthOf(chWidth).Some? {
      var w := WidthOf(chWidth).value;
      PackWithin(w, demands);
      if |demands| == 1 {
        PackLone(w, demands);
      }
    }
  }

  lemma PackWithin(w: Width, demands: seq<nat>)
    requires Sum(demands) > 0
    ensures ValidAllocation(w, PackIn(w, demands)) && |PackIn(w, demands)| <= |demands|
  {
    var shares := SharesOf(demands, Budget(w));
    SharesFit(demands, Budget(w));
    var selected := Selection(w, shares);
    SelectionSpec(w, shares);
    var corrected := Correction(w, selected, Budget(w) - TotalCost(selected));
    CorrectionSpec(w, selected, Budget(w) - TotalCost(selected));
    CorrectedIs(w, selected, corrected);
    PlacementSpec(w, corrected);
    PrefixWithin(w, corrected, Placement(w, corrected));
  }

  lemma PackLone(w: Width, demands: seq<nat>)
    requires |demands| == 1 && Sum(demands) > 0
    ensures PackIn(w, demands) == [Ru(FullClass(w), 1)]
  {
    assert demands[1..] == [];
    WholeDemandWholeShare(demands[0], Budget(w));
    var shares := SharesOf(demands, Budget(w));
    var full := [FullClass(w)];
    SharesFit(demands, Budget(w));
    SelectionSpec(w, shares);
    assert Selection(w, shares) == full;
    RankCost(w, FullClass(w));
    assert TotalCost(full) == Cost(FullClass(w));
    LoneEntryWidens(w, FullClass(w));
    CorrectedIs(w, full, full);
    PlacementSpec(w, full);
    PackInStages(w, demands, full, full);
  }

  /** The code's pipeline of loops: shares, selection, correction, placement for the channel's width. */
  method PropSchedulerFun(demands: seq<nat>, chWidth: nat) returns (allocation: seq<Ru>)
    requires chWidth in {20, 40, 80} ==> Sum(demands) > 0
    ensures allocation == Pack(demands, chWidth)
    ensures WidthOf(chWidth).None? ==> allocation == []
    ensures WidthOf(chWidth).Some? ==> ValidAllocation(WidthOf(chWidth).value, allocation)
    ensures |allocation| <= |demands|
    ensures WidthOf(chWidth).Some? && |demands| == 1 ==>
      allocation == [Ru(FullClass(WidthOf(chWidth).value), 1)]
  {
    allocation := [];
    match WidthOf(chWidth) {
      case None =>
      case Some(w) => allocation := PackOn(w, demands);
    }
    PackSpec(demands, chWidth);
  }

  /** The four stages of `PropSchedulerFun` on a channel it has a tone plan for. */
  method PackOn(w: Width, demands: seq<nat>) returns (allocation: seq<Ru>)
    requires Sum(demands) > 0
    ensures allocation == PackIn(w, demands)
  {
    var shares := ProportionalShares(demands, Budget(w));
    var selected, remaining := Select(w, shares);
    var ruArray := Correct(w, selected, remaining);
    CorrectedIs(w, selected, ruArray);
    match w {
      case W20 => allocation := Place20(ruArray);
      case W40 => allocation := Place40(ruArray);
      case W80 => allocation := Place80(ruArray);
    }
  }

  // Worked 20 MHz examples, one stage at a time.

  lemma SumCons(x: nat, s: seq<nat>)
    ensures Sum([x] + s) == x + Sum(s)
  {
    assert ([x] + s)[1..] == s;
  }

  lemma PicksCons(w: Width, x: nat, s: seq<nat>)
    ensures Picks(w, [x] + s) == PickOf(w, x) + Picks(w, s)
  {
    assert ([x] + s)[1..] == s;
  }

  lemma ClassesCons(c: ToneClass, s: seq<ToneClass>)
    ensures TotalCost([c] + s) == Cost(c) + TotalCost(s)
    ensures forall d :: CountOf([c] + s, d) == (if c == d then 1 else 0) + CountOf(s, d)
  {
    assert ([c] + s)[1..] == s;
  }

  /**
   * A 20 MHz packing whose picks fit the tone plan and cannot be upgraded
   * with the units left over is the placement of the picks.
   */
  lemma Pack20Unchanged(d: seq<nat>, picks: seq<ToneClass>)
    requires Sum(d) > 0 && Picks(W20, SharesOf(d, 9)) == picks
    requires WithinCaps(W20, picks) && FullAlone(W20, picks)
    requires forall k :: 0 <= k < |picks| ==> Guard(W20, picks[k], 9 - TotalCost(picks)).None?
    ensures Pack(d, 20) == Placement(W20, picks)
  {
    SelectedPicks20(d, picks);
    CorrectionIdle(W20, picks, 9 - TotalCost(picks));
    assert Budget(W20) == 9;
    CorrectedIs(W20, picks, picks);
    PackInStages(W20, d, picks, picks);
  }

  lemma SelectedPicks20(d: seq<nat>, picks: seq<ToneClass>)
    requires Sum(d) > 0 && Picks(W20, SharesOf(d, 9)) == picks
    requires WithinCaps(W20, picks) && FullAlone(W20, picks)
    ensures Selection(W20, SharesOf(d, 9)) == picks
  {
    SharesFit(d, 9);
    SelectionKeepsEveryPick(W20, SharesOf(d, 9));
  }

  /** The packing is the placement of what the correction makes of the selection. */
  lemma PackInStages(w: Width, d: seq<nat>, selected: seq<ToneClass>, corrected: seq<ToneClass>)
    requires Sum(d) > 0 && Selection(w, SharesOf(d, Budget(w))) == selected
    requires Corrected(w, selected) == corrected
    ensures PackIn(w, d) == Placement(w, corrected)
  {
  }

  /**
   * Two equal demands on a 20 MHz channel get its two 106-tone halves: four
   * units each, the fifth unit left over is too little to widen either.
   */
  lemma TwoEqualDemands20()
    ensures Pack([1, 1], 20) == [Ru(Ru106, 1), Ru(Ru106, 2)]
  {
    var d := [1, 1];
    var picks := [Ru106, Ru106];
    TwoPicks(d, picks);
    TwoPlaced(picks);
    Pack20Unchanged(d, picks);
  }

  lemma TwoPicks(d: seq<nat>, picks: seq<ToneClass>)
    requires d == [1, 1] && picks == [Ru106, Ru106]
    ensures Sum(d) == 2 && Picks(W20, SharesOf(d, 9)) == picks
    ensures TotalCost(picks) == 8 && WithinCaps(W20, picks) && FullAlone(W20, picks)
  {
    SumCons(1, [1]);
    SumCons(1, []);
    assert SharesOf(d, 9) == [4] + [4];
    PicksCons(W20, 4, [4]);
    PicksCons(W20, 4, []);
    ClassesCons(Ru106, [Ru106]);
    ClassesCons(Ru106, []);
  }

  lemma TwoPlaced(picks: seq<ToneClass>)
    requires picks == [Ru106, Ru106]
    ensures Placement(W20, picks) == [Ru(Ru106, 1), Ru(Ru106, 2)]
  {
    Index20(1);
    Index20(6);
    var a1 := [] + [Ru(Ru106, 1)];
    var a2 := a1 + [Ru(Ru106, 2)];
    assert Place20From(picks, 2, 10, a2) == a2;
    assert Place20From(picks, 1, 5, a1) == Place20From(picks, 2, 10, a2);
    assert Place20From(picks, 0, 1, []) == Place20From(picks, 1, 5, a1);
  }

  /**
   * As written, the placement can hand out overlapping RUs: demands 2, 4, 2
   * at 20 MHz select 52, 106 and 52 tones with one unit to spare, too little
   * for any upgrade; the cursor places the 52-tone RU 1 (units 1-2), then the
   * 106-tone RU 1 (units 1-4), which contains it, and the 52-tone RU 3.
   */
  lemma OverlappingRus20()
    ensures Pack([2, 4, 2], 20) == [Ru(Ru52, 1), Ru(Ru106, 1), Ru(Ru52, 3)]
    ensures Ranges(W20, Ru106)[0].0 <= Ranges(W20, Ru52)[0].0 <= Ranges(W20, Ru52)[0].1 <= Ranges(W20, Ru106)[0].1
  {
    var d := [2, 4, 2];
    var picks := [Ru52, Ru106, Ru52];
    OverlapPicks(d, picks);
    OverlapPlaced(picks);
    Pack20Unchanged(d, picks);
  }

  lemma OverlapPicks(d: seq<nat>, picks: seq<ToneClass>)
    requires d == [2, 4, 2] && picks == [Ru52, Ru106, Ru52]
    ensures Sum(d) == 8 && Picks(W20, SharesOf(d, 9)) == picks
    ensures TotalCost(picks) == 8 && WithinCaps(W20, picks) && FullAlone(W20, picks)
  {
    assert d == [2] + ([4] + [2]);
    SumCons(2, [4] + [2]);
    SumCons(4, [2]);
    SumCons(2, []);
    assert SharesOf(d, 9) == d;
    PicksCons(W20, 2, [4] + [2]);
    PicksCons(W20, 4, [2]);
    PicksCons(W20, 2, []);
    assert picks == [Ru52] + ([Ru106] + [Ru52]);
    ClassesCons(Ru52, [Ru106] + [Ru52]);
    ClassesCons(Ru106, [Ru52]);
    ClassesCons(Ru52, []);
  }

  lemma OverlapPlaced(picks: seq<ToneClass>)
    requires picks == [Ru52, Ru106, Ru52]
    ensures Placement(W20, picks) == [Ru(Ru52, 1), Ru(Ru106, 1), Ru(Ru52, 3)]
  {
    Index20(1);
    Index20(3);
    Index20(7);
    var a1 := [] + [Ru(Ru52, 1)];
    var a2 := a1 + [Ru(Ru106, 1)];
    var a3 := a2 + [Ru(Ru52, 3)];
    assert Place20From(picks, 3, 9, a3) == a3;
    assert Place20From(picks, 2, 7, a2) == Place20From(picks, 3, 9, a3);
    assert Place20From(picks, 1, 3, a1) == Place20From(picks, 2, 7, a2);
    assert Place20From(picks, 0, 1, []) == Place20From(picks, 1, 3, a1);
  }

  /**
   * As written, nine equal demands at 20 MHz hand the centre 26-tone RU 5 out
   * twice: nine 26-tone RUs are selected, the first eight take units 1 to 8
   * and the last entry takes RU 5 again, leaving RU 9 unused.
   */
  lemma NineEqualDemandsReuseRu5()
    ensures Pack([1, 1, 1, 1, 1, 1, 1, 1, 1], 20) ==
      [Ru(Ru26, 1), Ru(Ru26, 2), Ru(Ru26, 3), Ru(Ru26, 4), Ru(Ru26, 5),
       Ru(Ru26, 6), Ru(Ru26, 7), Ru(Ru26, 8), Ru(Ru26, 5)]
  {
    var d := [1, 1, 1, 1, 1, 1, 1, 1, 1];
    var nine := seq(9, _ => Ru26);
    NinePicks(d, nine);
    NinePlaced(nine);
    Pack20Unchanged(d, nine);
  }

  lemma NinePicks(d: seq<nat>, nine: seq<ToneClass>)
    requires d == [1, 1, 1, 1, 1, 1, 1, 1, 1] && nine == seq(9, _ => Ru26)
    ensures Sum(d) == 9 && Picks(W20, SharesOf(d, 9)) == nine
    ensures TotalCost(nine) == 9 && WithinCaps(W20, nine) && FullAlone(W20, nine)
  {
    Ones(d);
    Smallest(nine);
    assert SharesOf(d, 9) == d;
  }

  lemma {:induction false} Ones(s: seq<nat>)
    requires forall k :: 0 <= k < |s| ==> s[k] == 1
    ensures Sum(s) == |s| && Picks(W20, s) == seq(|s|, _ => Ru26)
  {
    if s != [] {
      Ones(s[1..]);
    }
  }

  lemma {:induction false} Smallest(s: seq<ToneClass>)
    requires forall k :: 0 <= k < |s| ==> s[k] == Ru26
    ensures TotalCost(s) == |s| && CountOf(s, Ru26) == |s|
    ensures forall c :: c != Ru26 ==> CountOf(s, c) == 0
  {
    if s != [] {
      Smallest(s[1..]);
    }
  }

  lemma NinePlaced(nine: seq<ToneClass>)
    requires nine == seq(9, _ => Ru26)
    ensures Placement(W20, nine) ==
      [Ru(Ru26, 1), Ru(Ru26, 2), Ru(Ru26, 3), Ru(Ru26, 4), Ru(Ru26, 5),
       Ru(Ru26, 6), Ru(Ru26, 7), Ru(Ru26, 8), Ru(Ru26, 5)]
  {
    var a0: seq<Ru> := [];
    var a1 := a0 + [Ru(Ru26, 1)];
    var a2 := a1 + [Ru(Ru26, 2)];
    var a3 := a2 + [Ru(Ru26, 3)];
    var a4 := a3 + [Ru(Ru26, 4)];
    var a5 := a4 + [Ru(Ru26, 5)];
    var a6 := a5 + [Ru(Ru26, 6)];
    var a7 := a6 + [Ru(Ru26, 7)];
    var a8 := a7 + [Ru(Ru26, 8)];
    assert Place20From(nine, 8, 9, a8) == a8 + [Ru(Ru26, 5)];
    assert Place20From(nine, 7, 8, a7) == Place20From(nine, 8, 9, a8);
    assert Place20From(nine, 6, 7, a6) == Place20From(nine, 7, 8, a7);
    assert Place20From(nine, 5, 6, a5) == Place20From(nine, 6, 7, a6);
    assert Place20From(nine, 4, 5, a4) == Place20From(nine, 5, 6, a5);
    assert Place20From(nine, 3, 4, a3) == Place20From(nine, 4, 5, a4);
    assert Place20From(nine, 2, 3, a2) == Place20From(nine, 3, 4, a3);
    assert Place20From(nine, 1, 2, a1) == Place20From(nine, 2, 3, a2);
    assert Place20From(nine, 0, 1, a0) == Place20From(nine, 1, 2, a1);
  }

  /** A placed prefix of a corrected array keeps the array's budget and caps. */
  lemma PrefixWithin(w: Width, ruArray: seq<ToneClass>, allocation: seq<Ru>)
    requires PlacesPrefix(w, ruArray, allocation)
    requires TotalCost(ruArray) <= Budget(w) && WithinCaps(w, ruArray)
    ensures ValidAllocation(w, allocation)
  {
    var n := |allocation|;
    assert Classes(allocation) == ruArray[..n];
    assert ruArray == ruArray[..n] + ruArray[n..];
    TotalCostAppend(ruArray[..n], ruArray[n..]);
    forall c | c != FullClass(w)
      ensures CountOf(Classes(allocation), c) <= NumRus(w, c)
    {
      CountAppend(ruArray[..n], ruArray[n..], c);
    }
  }
}
