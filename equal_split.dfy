/**
 * The two passes of the ns-3.41 equal-split assignment
 * (ns3.41/rr-multi-user-scheduler.cc): the type pass of `TrySendingBasicTf`
 * and `ComputeDlMuInfo` gives the candidates, in list order, an RU type in
 * the TXVECTOR (the equal size for the first `count`, 26 tones for the next
 * `nCentral26TonesRus`), and `AssignRuIndices` then turns every type into a
 * concrete RU, walking the users by ascending STA-ID. The RU lists of the HE
 * RU library (`GetRusOfType`, `GetCentral26TonesRus`) are given.
 */
module EqualSplit {
  import opened Wrappers
  import opened HeRu
  import opened Stations
  import opened RuAssignment
  import Central26

  function Repeat<T>(x: T, n: nat): (r: seq<T>)
    ensures |r| == n && forall k :: 0 <= k < n ==> r[k] == x
  {
    if n == 0 then [] else Repeat(x, n - 1) + [x]
  }

  // ---------------------------------------------------------------------
  // Type pass
  // ---------------------------------------------------------------------

  /**
   * The type pass over `count + nCentral` rounds. In `TrySendingBasicTf`
   * every round asserts that a candidate is left (`assertEach`); in
   * `ComputeDlMuInfo` the loop stops at the end of the list. The candidates
   * the loop did not reach are erased.
   */
  function TypePass(cands: seq<MasterInfo>, count: nat, nCentral: nat, ruType: ToneClass, assertEach: bool)
    : Result<Finalized<ToneClass>>
  {
    var total := count + nCentral;
    if assertEach && |cands| < total then Failure("no candidate left for an RU")
    else
      var n := Central26.Min(|cands|, total);
      Success(Finalized(UsersUpTo(cands, n, count, Repeat(ruType, count), Repeat(Ru26, nCentral)), cands[..n]))
  }

  method AssignTypes(cands: seq<MasterInfo>, count: nat, nCentral: nat, ruType: ToneClass, assertEach: bool)
    returns (r: Result<Finalized<ToneClass>>)
    ensures r == TypePass(cands, count, nCentral, ruType, assertEach)
  {
    var users: seq<UserInfo<ToneClass>> := [];
    var i := 0;
    while i < count + nCentral
      invariant i <= count + nCentral && i <= |cands|
      invariant users == UsersUpTo(cands, i, count, Repeat(ruType, count), Repeat(Ru26, nCentral))
    {
      if i == |cands| {
        if assertEach {
          return Failure("no candidate left for an RU");
        }
        break;
      }
      users := SetUser(users, cands[i].aid, if i < count then ruType else Ru26);
      i := i + 1;
    }
    r := Success(Finalized(users, cands[..i]));
  }

  /**
   * The type pass succeeds unless it asserts and runs out of candidates;
   * it serves the first `min(|cands|, count + nCentral)` candidates, the
   * table holds exactly them by ascending STA-ID, the first `count` of them
   * with the equal size and the others with 26 tones.
   */
  lemma TypePassSpec(cands: seq<MasterInfo>, count: nat, nCentral: nat, ruType: ToneClass, assertEach: bool)
    requires UniqueAids(cands)
    ensures var r := TypePass(cands, count, nCentral, ruType, assertEach);
            (r.Success? <==> !assertEach || count + nCentral <= |cands|) &&
            (r.Success? ==>
               var n := Central26.Min(|cands|, count + nCentral);
               r.value.served == cands[..n] &&
               AidsAscending(r.value.users) &&
               (forall a :: a in AidsOf(r.value.users) <==> exists j :: 0 <= j < n && cands[j].aid == a) &&
               (forall j :: 0 <= j < n ==>
                  Lookup(r.value.users, cands[j].aid) == Some(if j < count then ruType else Ru26)))
  {
    var n := Central26.Min(|cands|, count + nCentral);
    var rus, central := Repeat(ruType, count), Repeat(Ru26, nCentral);
    UsersUpToSpec(cands, n, count, rus, central);
    forall j | 0 <= j < n
      ensures RuFor(j, count, rus, central) == if j < count then ruType else Ru26
    {
      FitsMonotone(j + 1, n, count, rus, central);
    }
  }

  /** Every user of the type pass holds the equal size or 26 tones. */
  lemma TypePassTypes(cands: seq<MasterInfo>, count: nat, nCentral: nat, ruType: ToneClass, assertEach: bool)
    requires UniqueAids(cands)
    requires TypePass(cands, count, nCentral, ruType, assertEach).Success?
    ensures var users := TypePass(cands, count, nCentral, ruType, assertEach).value.users;
            forall k :: 0 <= k < |users| ==> users[k].ru == ruType || users[k].ru == Ru26
  {
    var n := Central26.Min(|cands|, count + nCentral);
    var users := TypePass(cands, count, nCentral, ruType, assertEach).value.users;
    TypePassSpec(cands, count, nCentral, ruType, assertEach);
    forall k | 0 <= k < |users| ensures users[k].ru == ruType || users[k].ru == Ru26 {
      AidsOfIndex(users, k);
      LookupIndex(users, k);
      var j :| 0 <= j < n && cands[j].aid == users[k].aid;
    }
  }

  // ---------------------------------------------------------------------
  // AssignRuIndices
  // ---------------------------------------------------------------------

  /** `ruTypeSet`: the RU types present in the table. */
  function TypesOf(users: seq<UserInfo<ToneClass>>): (r: set<ToneClass>)
    ensures forall c :: c in r <==> exists k :: 0 <= k < |users| && users[k].ru == c
  {
    if users == [] then {}
    else
      var init := users[..|users| - 1];
      assert forall k :: 0 <= k < |init| ==> init[k] == users[k];
      TypesOf(init) + {users[|users| - 1].ru}
  }

  /** A non-empty set of types that lacks the five smaller ones holds the full-band type. */
  lemma OnlyLargest(s: set<ToneClass>)
    requires s != {}
    requires Ru26 !in s && Ru52 !in s && Ru106 !in s && Ru242 !in s && Ru484 !in s
    ensures Ru996 in s
  {
    var c :| c in s;
    assert c.Ru996?;
  }

  /** `*ruTypeSet.begin()`: the smallest type of the set, a `std::set` being ordered by size. */
  function Smallest(s: set<ToneClass>): (r: ToneClass)
    requires s != {}
    ensures r in s && forall c :: c in s ==> Rank(r) <= Rank(c)
  {
    if Ru26 in s then Ru26
    else if Ru52 in s then Ru52
    else if Ru106 in s then Ru106
    else if Ru242 in s then Ru242
    else if Ru484 in s then Ru484
    else OnlyLargest(s); Ru996
  }

  lemma RemoveOne(s: set<ToneClass>, x: ToneClass)
    requires x in s
    ensures |s - {x}| == |s| - 1
  {
    assert s * {x} == {x};
  }

  lemma Singleton(s: set<ToneClass>, x: ToneClass)
    requires |s| == 1 && x in s
    ensures s == {x}
  {
    RemoveOne(s, x);
    assert s - {x} == {};
  }

  /**
   * The RU type the users of the main size hold and whether 26-tone users
   * draw from the central RUs; `None` where `AssignRuIndices` fails an
   * assertion (no users, two sizes without 26 tones, three sizes or more).
   */
  function MainType(types: set<ToneClass>): Option<(ToneClass, bool)>
  {
    if |types| == 2 then
      if Ru26 in types then RemoveOne(types, Ru26); Some((Smallest(types - {Ru26}), true)) else None
    else if |types| == 1 then Some((Smallest(types), false))
    else None
  }

  /**
   * The type rules of `AssignRuIndices`: it accepts one size alone, or one
   * size beside 26-tone RUs, in which case 26 tones are not the main size.
   */
  lemma MainTypeSpec(types: set<ToneClass>)
    ensures MainType(types).Some? <==> |types| == 1 || (|types| == 2 && Ru26 in types)
    ensures MainType(types).Some? ==>
              var (main, withCentral) := MainType(types).value;
              types == (if withCentral then {main, Ru26} else {main}) &&
              (withCentral ==> main != Ru26)
  {
    if |types| == 2 && Ru26 in types {
      RemoveOne(types, Ru26);
      Singleton(types - {Ru26}, Smallest(types - {Ru26}));
    } else if |types| == 1 {
      Singleton(types, Smallest(types));
    }
  }

  /** Number of the first `k` users whose type is `main`. */
  function MainCount(users: seq<UserInfo<ToneClass>>, k: nat, main: ToneClass): (r: nat)
    requires k <= |users|
    ensures r <= k
  {
    if k == 0 then 0 else MainCount(users, k - 1, main) + (if users[k - 1].ru == main then 1 else 0)
  }

  /** The first `k` users draw within both RU lists. */
  predicate PlaceFits<R>(users: seq<UserInfo<ToneClass>>, k: nat, main: ToneClass, rus: seq<R>, central: seq<R>)
    requires k <= |users|
  {
    MainCount(users, k, main) <= |rus| && k - MainCount(users, k, main) <= |central|
  }

  lemma {:induction false} CountsMonotone(users: seq<UserInfo<ToneClass>>, a: nat, b: nat, main: ToneClass)
    requires a <= b <= |users|
    ensures MainCount(users, a, main) <= MainCount(users, b, main)
    ensures a - MainCount(users, a, main) <= b - MainCount(users, b, main)
    decreases b
  {
    if a < b {
      CountsMonotone(users, a, b - 1, main);
    }
  }

  /** The users up to and including position `i` draw within both RU lists. */
  predicate FitsThrough<R>(users: seq<UserInfo<ToneClass>>, i: nat, main: ToneClass, rus: seq<R>, central: seq<R>)
    requires i < |users|
  {
    PlaceFits(users, i + 1, main, rus, central)
  }

  /**
   * The RU of the user in position `i`: the next entry of the main list if
   * it holds the main size, the next central 26-tone RU otherwise.
   */
  function RuAt<R>(users: seq<UserInfo<ToneClass>>, i: nat, main: ToneClass, rus: seq<R>, central: seq<R>): R
    requires i < |users| && FitsThrough(users, i, main, rus, central)
  {
    var c := MainCount(users, i, main);
    if users[i].ru == main then rus[c] else central[i - c]
  }

  /** The table after the first `k` users got their RU (`SetRu`). */
  function Placed<R>(users: seq<UserInfo<ToneClass>>, k: nat, main: ToneClass, rus: seq<R>, central: seq<R>)
    : seq<UserInfo<R>>
    requires k <= |users| && PlaceFits(users, k, main, rus, central)
  {
    if k == 0 then []
    else Placed(users, k - 1, main, rus, central) + [UserInfo(users[k - 1].aid, RuAt(users, k - 1, main, rus, central))]
  }

  /** What `AssignRuIndices` leaves in the TXVECTOR, or the assertion it fails. */
  function RuIndices<R>(users: seq<UserInfo<ToneClass>>, rusOf: ToneClass -> seq<R>, centralOf: ToneClass -> seq<R>)
    : Result<seq<UserInfo<R>>>
  {
    match MainType(TypesOf(users))
    case None => Failure("RU types other than one size, with or without 26-tone RUs")
    case Some((main, withCentral)) =>
      var rus := rusOf(main);
      var central := if withCentral then centralOf(main) else [];
      Placement(users, main, rus, central)
  }

  /** The first loop of `AssignRuIndices`: the set of RU types in the table. */
  method CollectTypes(users: seq<UserInfo<ToneClass>>) returns (ruTypeSet: set<ToneClass>)
    ensures ruTypeSet == TypesOf(users)
  {
    ruTypeSet := {};
    var k := 0;
    while k < |users|
      invariant k <= |users|
      invariant ruTypeSet == TypesOf(users[..k])
    {
      assert users[..k + 1][..k] == users[..k];
      ruTypeSet := ruTypeSet + {users[k].ru};
      k := k + 1;
    }
    assert users[..k] == users;
  }

  /** Placement outcome for a given main size and pair of RU lists. */
  function Placement<R>(users: seq<UserInfo<ToneClass>>, main: ToneClass, rus: seq<R>, central: seq<R>)
    : Result<seq<UserInfo<R>>>
  {
    if PlaceFits(users, |users|, main, rus, central) then Success(Placed(users, |users|, main, rus, central))
    else Failure("RU list exhausted")
  }

  /** One `SetRu` step: the user in position `i` either draws the next RU of its list or exhausts it. */
  lemma PlaceNext<R>(users: seq<UserInfo<ToneClass>>, i: nat, main: ToneClass, rus: seq<R>, central: seq<R>)
    requires i < |users| && PlaceFits(users, i, main, rus, central)
    ensures MainCount(users, i + 1, main) == MainCount(users, i, main) + (if users[i].ru == main then 1 else 0)
    ensures FitsThrough(users, i, main, rus, central) <==>
            if users[i].ru == main then MainCount(users, i, main) < |rus|
            else i - MainCount(users, i, main) < |central|
    ensures !FitsThrough(users, i, main, rus, central) ==> !PlaceFits(users, |users|, main, rus, central)
    ensures FitsThrough(users, i, main, rus, central) ==>
            Placed(users, i + 1, main, rus, central) ==
            Placed(users, i, main, rus, central) + [UserInfo(users[i].aid, RuAt(users, i, main, rus, central))]
  {
    CountsMonotone(users, i + 1, |users|, main);
  }

  /** The second loop of `AssignRuIndices`: `SetRu` for every user, by ascending STA-ID. */
  method PlaceUsers<R>(users: seq<UserInfo<ToneClass>>, main: ToneClass, rus: seq<R>, central: seq<R>)
    returns (r: Result<seq<UserInfo<R>>>)
    ensures r == Placement(users, main, rus, central)
  {
    var ruIt, centralIt := 0, 0;
    var placed: seq<UserInfo<R>> := [];
    var i := 0;
    while i < |users|
      invariant i <= |users| && PlaceFits(users, i, main, rus, central)
      invariant ruIt == MainCount(users, i, main) && centralIt == i - MainCount(users, i, main)
      invariant placed == Placed(users, i, main, rus, central)
    {
      PlaceNext(users, i, main, rus, central);
      if users[i].ru == main {
        if ruIt == |rus| {
          return Failure("RU list exhausted");
        }
        placed := placed + [UserInfo(users[i].aid, rus[ruIt])];
        ruIt := ruIt + 1;
      } else {
        if centralIt == |central| {
          return Failure("RU list exhausted");
        }
        placed := placed + [UserInfo(users[i].aid, central[centralIt])];
        centralIt := centralIt + 1;
      }
      i := i + 1;
    }
    r := Success(placed);
  }

  method AssignRuIndices<R>(users: seq<UserInfo<ToneClass>>, rusOf: ToneClass -> seq<R>, centralOf: ToneClass -> seq<R>)
    returns (r: Result<seq<UserInfo<R>>>)
    ensures r == RuIndices(users, rusOf, centralOf)
  {
    var ruTypeSet := CollectTypes(users);
    var central: seq<R> := [];
    if |ruTypeSet| == 2 {
      if Ru26 !in ruTypeSet {
        return Failure("RU types other than one size, with or without 26-tone RUs");
      }
      RemoveOne(ruTypeSet, Ru26);
      ruTypeSet := ruTypeSet - {Ru26};
      central := centralOf(Smallest(ruTypeSet));
    }
    if |ruTypeSet| != 1 {
      return Failure("RU types other than one size, with or without 26-tone RUs");
    }
    var main := Smallest(ruTypeSet);
    r := PlaceUsers(users, main, rusOf(main), central);
  }

  lemma {:induction false} PlacedSpec<R>(users: seq<UserInfo<ToneClass>>, k: nat, main: ToneClass, rus: seq<R>, central: seq<R>)
    requires k <= |users| && PlaceFits(users, k, main, rus, central)
    ensures |Placed(users, k, main, rus, central)| == k
    ensures forall i :: 0 <= i < k ==>
              FitsThrough(users, i, main, rus, central) &&
              Placed(users, k, main, rus, central)[i] == UserInfo(users[i].aid, RuAt(users, i, main, rus, central))
  {
    if k > 0 {
      PlacedSpec(users, k - 1, main, rus, central);
      var prev := Placed(users, k - 1, main, rus, central);
      var last := UserInfo(users[k - 1].aid, RuAt(users, k - 1, main, rus, central));
      assert Placed(users, k, main, rus, central) == prev + [last];
      forall i | 0 <= i < k
        ensures FitsThrough(users, i, main, rus, central) &&
                Placed(users, k, main, rus, central)[i] == UserInfo(users[i].aid, RuAt(users, i, main, rus, central))
      {
        if i < k - 1 {
          assert (prev + [last])[i] == prev[i];
        }
      }
    }
  }

  /** The central list `AssignRuIndices` draws from. */
  function CentralOf<R>(users: seq<UserInfo<ToneClass>>, centralOf: ToneClass -> seq<R>): seq<R>
    requires MainType(TypesOf(users)).Some?
  {
    var (main, withCentral) := MainType(TypesOf(users)).value;
    if withCentral then centralOf(main) else []
  }

  /**
   * `AssignRuIndices` keeps the users and their order (ascending STA-ID)
   * and only sets their RUs: every user holds the main size or, beside it,
   * 26 tones; the users of the main size take successive entries of
   * `GetRusOfType`, the others successive central 26-tone RUs.
   */
  lemma RuIndicesSpec<R>(users: seq<UserInfo<ToneClass>>, rusOf: ToneClass -> seq<R>, centralOf: ToneClass -> seq<R>)
    requires RuIndices(users, rusOf, centralOf).Success?
    ensures MainType(TypesOf(users)).Some?
    ensures var p := RuIndices(users, rusOf, centralOf).value;
            var (main, withCentral) := MainType(TypesOf(users)).value;
            |p| == |users| &&
            (forall i :: 0 <= i < |users| ==> users[i].ru == main || (withCentral && users[i].ru == Ru26)) &&
            (forall i :: 0 <= i < |users| ==>
               FitsThrough(users, i, main, rusOf(main), CentralOf(users, centralOf)) &&
               p[i] == UserInfo(users[i].aid, RuAt(users, i, main, rusOf(main), CentralOf(users, centralOf))))
  {
    var (main, withCentral) := MainType(TypesOf(users)).value;
    MainTypeSpec(TypesOf(users));
    PlacedSpec(users, |users|, main, rusOf(main), CentralOf(users, centralOf));
    forall i | 0 <= i < |users| ensures users[i].ru == main || (withCentral && users[i].ru == Ru26) {
      assert users[i].ru in TypesOf(users);
    }
  }

  /**
   * With duplicate-free RU lists that share no RU, no two users end up on
   * the same RU.
   */
  lemma RuIndicesDistinct<R>(users: seq<UserInfo<ToneClass>>, rusOf: ToneClass -> seq<R>, centralOf: ToneClass -> seq<R>)
    requires RuIndices(users, rusOf, centralOf).Success?
    requires MainType(TypesOf(users)).Some?
    requires var main := MainType(TypesOf(users)).value.0;
             Distinct(rusOf(main)) && Distinct(centralOf(main)) &&
             forall i, j :: 0 <= i < |rusOf(main)| && 0 <= j < |centralOf(main)| ==> rusOf(main)[i] != centralOf(main)[j]
    ensures var p := RuIndices(users, rusOf, centralOf).value;
            forall i, j :: 0 <= i < j < |p| ==> p[i].ru != p[j].ru
  {
    var p := RuIndices(users, rusOf, centralOf).value;
    var main := MainType(TypesOf(users)).value.0;
    var central := CentralOf(users, centralOf);
    RuIndicesSpec(users, rusOf, centralOf);
    forall i, j | 0 <= i < j < |p| ensures p[i].ru != p[j].ru {
      DistinctPair(users, i, j, main, rusOf(main), central);
    }
  }

  lemma DistinctPair<R>(users: seq<UserInfo<ToneClass>>, i: nat, j: nat, main: ToneClass, rus: seq<R>, central: seq<R>)
    requires i < j < |users|
    requires FitsThrough(users, i, main, rus, central) && FitsThrough(users, j, main, rus, central)
    requires Distinct(rus) && Distinct(central)
    requires forall a, b :: 0 <= a < |rus| && 0 <= b < |central| ==> rus[a] != central[b]
    ensures RuAt(users, i, main, rus, central) != RuAt(users, j, main, rus, central)
  {
    CountsMonotone(users, i + 1, j, main);
  }

  /**
   * The type pass never trips the type assertions of `AssignRuIndices`:
   * whenever it serves somebody, the table holds the equal size alone, 26
   * tones alone, or both.
   */
  lemma TypePassAccepted(cands: seq<MasterInfo>, count: nat, nCentral: nat, ruType: ToneClass, assertEach: bool)
    requires UniqueAids(cands)
    requires TypePass(cands, count, nCentral, ruType, assertEach).Success?
    requires TypePass(cands, count, nCentral, ruType, assertEach).value.users != []
    ensures MainType(TypesOf(TypePass(cands, count, nCentral, ruType, assertEach).value.users)).Some?
  {
    TypePassTypes(cands, count, nCentral, ruType, assertEach);
    OneTypeBesideCentral(TypePass(cands, count, nCentral, ruType, assertEach).value.users, ruType);
  }

  /** A table of one RU size, 26-tone RUs possibly beside it, has a main size. */
  lemma OneTypeBesideCentral(users: seq<UserInfo<ToneClass>>, ruType: ToneClass)
    requires users != []
    requires forall k :: 0 <= k < |users| ==> users[k].ru == ruType || users[k].ru == Ru26
    ensures MainType(TypesOf(users)).Some?
  {
    var types := TypesOf(users);
    forall c | c in types
      ensures c == ruType || c == Ru26
    {
      var k :| 0 <= k < |users| && users[k].ru == c;
    }
    assert users[0].ru in types;
    PairHasMain(types, ruType);
  }

  /** A non-empty set of at most one size beside 26 tones has a main size. */
  lemma PairHasMain(types: set<ToneClass>, ruType: ToneClass)
    requires types != {} && forall c :: c in types ==> c == ruType || c == Ru26
    ensures MainType(types).Some?
  {
    if ruType in types && Ru26 in types && ruType != Ru26 {
      assert types == {ruType, Ru26};
    } else if ruType in types {
      assert types == {ruType};
    } else {
      var c :| c in types;
      assert types == {Ru26};
    }
  }
}
