/**
 * The HE resource-unit (RU) tone plan as the scheduler sees it: the six RU
 * sizes, how many 26-tone units each one spans, and how many RUs of each size
 * a 20, 40 or 80 MHz channel holds (IEEE 802.11ax HE tone plan).
 */
module HeRu {
  import opened Wrappers

  datatype ToneClass = Ru26 | Ru52 | Ru106 | Ru242 | Ru484 | Ru996

  datatype Width = W20 | W40 | W80

  /** An RU handed to a station: its size and its 1-based index in the channel. */
  datatype Ru = Ru(toneClass: ToneClass, index: nat)

  /** Size order of the tone classes. */
  function Rank(c: ToneClass): nat
  {
    match c
    case Ru26 => 0
    case Ru52 => 1
    case Ru106 => 2
    case Ru242 => 3
    case Ru484 => 4
    case Ru996 => 5
  }

  /** The scheduler's unit cost of a class, counted in 26-tone units. */
  function Cost(c: ToneClass): nat
  {
    match c
    case Ru26 => 1
    case Ru52 => 2
    case Ru106 => 4
    case Ru242 => 9
    case Ru484 => 18
    case Ru996 => 37
  }

  /** Number of 26-tone units in a channel: the scheduler's budget. */
  function Budget(w: Width): nat
  {
    match w
    case W20 => 9
    case W40 => 18
    case W80 => 37
  }

  /** The class that covers the whole channel. */
  function FullClass(w: Width): ToneClass
  {
    match w
    case W20 => Ru242
    case W40 => Ru484
    case W80 => Ru996
  }

  /** Channel widths, in MHz, that the proportional scheduler handles. */
  function WidthOf(mhz: nat): (r: Option<Width>)
    ensures r.Some? <==> mhz in {20, 40, 80}
  {
    if mhz == 20 then Some(W20)
    else if mhz == 40 then Some(W40)
    else if mhz == 80 then Some(W80)
    else None
  }

  /** How many RUs of class c the HE tone plan places in a channel of width w. */
  function NumRus(w: Width, c: ToneClass): nat
  {
    match (w, c)
    case (W20, Ru26) => 9
    case (W20, Ru52) => 4
    case (W20, Ru106) => 2
    case (W20, Ru242) => 1
    case (W20, _) => 0
    case (W40, Ru26) => 18
    case (W40, Ru52) => 8
    case (W40, Ru106) => 4
    case (W40, Ru242) => 2
    case (W40, Ru484) => 1
    case (W40, Ru996) => 0
    case (W80, Ru26) => 37
    case (W80, Ru52) => 16
    case (W80, Ru106) => 8
    case (W80, Ru242) => 4
    case (W80, Ru484) => 2
    case (W80, Ru996) => 1
  }

  /** A class fits in a channel when the tone plan has at least one RU of it. */
  predicate InWidth(w: Width, c: ToneClass)
  {
    Rank(c) <= Rank(FullClass(w))
  }

  /** Total cost, in 26-tone units, of a sequence of classes. */
  function TotalCost(s: seq<ToneClass>): nat
  {
    if s == [] then 0 else Cost(s[0]) + TotalCost(s[1..])
  }

  /** Number of entries of class c. */
  function CountOf(s: seq<ToneClass>, c: ToneClass): nat
  {
    if s == [] then 0 else (if s[0] == c then 1 else 0) + CountOf(s[1..], c)
  }

  /** The classes of an allocation, in order. */
  function Classes(a: seq<Ru>): (r: seq<ToneClass>)
    ensures |r| == |a|
    ensures forall k :: 0 <= k < |a| ==> r[k] == a[k].toneClass
  {
    if a == [] then [] else [a[0].toneClass] + Classes(a[1..])
  }

  lemma RankCost(w: Width, c: ToneClass)
    ensures InWidth(w, c) <==> NumRus(w, c) >= 1
    ensures InWidth(w, c) ==> Cost(c) <= Budget(w)
    ensures Cost(FullClass(w)) == Budget(w) && NumRus(w, FullClass(w)) == 1
    ensures Rank(c) < Rank(FullClass(w)) ==> Cost(c) < Budget(w)
  {
  }

  /** Adding the class costs of a sequence is additive over concatenation. */
  lemma {:induction false} TotalCostAppend(s: seq<ToneClass>, t: seq<ToneClass>)
    ensures TotalCost(s + t) == TotalCost(s) + TotalCost(t)
  {
    if s == [] {
      assert s + t == t;
    } else {
      assert (s + t)[1..] == s[1..] + t;
      TotalCostAppend(s[1..], t);
    }
  }

  lemma {:induction false} CountAppend(s: seq<ToneClass>, t: seq<ToneClass>, c: ToneClass)
    ensures CountOf(s + t, c) == CountOf(s, c) + CountOf(t, c)
  {
    if s == [] {
      assert s + t == t;
    } else {
      assert (s + t)[1..] == s[1..] + t;
      CountAppend(s[1..], t, c);
    }
  }

  /** Replacing one entry changes the total cost by the difference of the two classes. */
  lemma {:induction false} TotalCostUpdate(s: seq<ToneClass>, i: nat, c: ToneClass)
    requires i < |s|
    ensures TotalCost(s[i := c]) == TotalCost(s) - Cost(s[i]) + Cost(c)
  {
    if i > 0 {
      assert s[i := c][1..] == s[1..][i - 1 := c];
      TotalCostUpdate(s[1..], i - 1, c);
    } else {
      assert s[i := c][1..] == s[1..];
    }
  }

  /** Replacing one entry moves exactly one count from the old class to the new one. */
  lemma {:induction false} CountUpdate(s: seq<ToneClass>, i: nat, c: ToneClass, d: ToneClass)
    requires i < |s|
    ensures CountOf(s[i := c], d) ==
      CountOf(s, d) - (if s[i] == d then 1 else 0) + (if c == d then 1 else 0)
  {
    if i > 0 {
      assert s[i := c][1..] == s[1..][i - 1 := c];
      CountUpdate(s[1..], i - 1, c, d);
    } else {
      assert s[i := c][1..] == s[1..];
    }
  }

  /** Each entry of class c contributes Cost(c) to the total. */
  lemma {:induction false} CountCost(s: seq<ToneClass>, c: ToneClass)
    ensures CountOf(s, c) * Cost(c) <= TotalCost(s)
  {
    if s != [] {
      CountCost(s[1..], c);
    }
  }

  /** An entry sits inside the total; a whole-channel entry leaves room for nothing else. */
  lemma {:induction false} EntryCost(s: seq<ToneClass>, i: nat)
    requires i < |s|
    ensures Cost(s[i]) <= TotalCost(s)
    ensures Cost(s[i]) == TotalCost(s) ==> |s| == 1
  {
    if i > 0 {
      EntryCost(s[1..], i - 1);
    } else if |s| > 1 {
      assert s[1..][0] == s[1];
      EntryCost(s[1..], 0);
    }
  }
}
