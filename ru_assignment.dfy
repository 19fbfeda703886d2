/**
 * The equal-split RU hand-out shared by `FinalizeTxVector` and
 * `ComputeDlMuInfo`: the candidates, in list order, take successive entries
 * of the equal-sized RU list and then of the central 26-tone RU list; the
 * loop stops at the end of the candidate list and the candidates it did not
 * reach are erased. The RU lists come from the HE RU library and are given.
 */
module RuAssignment {
  import opened Wrappers
  import opened Stations
  import Central26

  /** The answers of `HeRu::GetEqualSizedRusForStations` for one station count. */
  datatype EqualSizedRus<C> = EqualSizedRus(ruType: C, nRus: Central26.Size, nCentral: Central26.Size)

  /** Outcome of an assignment: the per-user table and the candidates left after the erase. */
  datatype Finalized<R> = Finalized(users: seq<UserInfo<R>>, served: seq<MasterInfo>)

  /**
   * The first `k` users draw `Min(k, nRus)` entries from the equal-sized list
   * and the rest from the central list; both draws stay inside their lists.
   */
  predicate Fits<R>(k: nat, nRus: nat, ruSet: seq<R>, central: seq<R>)
  {
    Central26.Min(k, nRus) <= |ruSet| && k - Central26.Min(k, nRus) <= |central|
  }

  lemma FitsMonotone<R>(a: nat, b: nat, nRus: nat, ruSet: seq<R>, central: seq<R>)
    requires a <= b && Fits(b, nRus, ruSet, central)
    ensures Fits(a, nRus, ruSet, central)
  {
  }

  lemma NoFitBeyond<R>(a: nat, b: nat, nRus: nat, ruSet: seq<R>, central: seq<R>)
    requires a <= b && !Fits(a, nRus, ruSet, central)
    ensures !Fits(b, nRus, ruSet, central)
  {
  }

  /** The RU of the user in position `j` (`i < nRusAssigned ? *ruSetIt++ : *central26TonesRusIt++`). */
  function RuFor<R>(j: nat, nRus: nat, ruSet: seq<R>, central: seq<R>): R
    requires Fits(j + 1, nRus, ruSet, central)
  {
    if j < nRus then ruSet[j] else central[j - nRus]
  }

  /** The per-user table after the first `k` candidates got their RU. */
  function UsersUpTo<R>(cands: seq<MasterInfo>, k: nat, nRus: nat, ruSet: seq<R>, central: seq<R>): seq<UserInfo<R>>
    requires k <= |cands| && Fits(k, nRus, ruSet, central)
  {
    if k == 0 then []
    else SetUser(UsersUpTo(cands, k - 1, nRus, ruSet, central), cands[k - 1].aid, RuFor(k - 1, nRus, ruSet, central))
  }

  /**
   * The loop `for (i = 0; i < total; i++)`: the assertion that a candidate is
   * left fails only on an empty list (the loop breaks at its end), and
   * drawing past the end of an RU list is undefined behaviour, modelled as a
   * failure.
   */
  function Assignment<R>(cands: seq<MasterInfo>, total: nat, nRus: nat, ruSet: seq<R>, central: seq<R>): Result<Finalized<R>>
  {
    var served := Central26.Min(|cands|, total);
    if total > 0 && cands == [] then Failure("no candidate left for an RU")
    else if !Fits(served, nRus, ruSet, central) then Failure("RU list exhausted")
    else Success(Finalized(UsersUpTo(cands, served, nRus, ruSet, central), cands[..served]))
  }

  method AssignRus<R>(cands: seq<MasterInfo>, total: nat, nRus: nat, ruSet: seq<R>, central: seq<R>)
    returns (r: Result<Finalized<R>>)
    ensures r == Assignment(cands, total, nRus, ruSet, central)
  {
    var users: seq<UserInfo<R>> := [];
    var ruIt, centralIt := 0, 0;
    var i := 0;
    while i < total
      invariant i <= total && i <= |cands|
      invariant i == 0 || i < |cands|
      invariant Fits(i, nRus, ruSet, central)
      invariant ruIt == Central26.Min(i, nRus) && centralIt == i - Central26.Min(i, nRus)
      invariant users == UsersUpTo(cands, i, nRus, ruSet, central)
    {
      if i == |cands| {
        return Failure("no candidate left for an RU");
      }
      var ru;
      if i < nRus {
        if ruIt == |ruSet| {
          NoFitBeyond(i + 1, Central26.Min(|cands|, total), nRus, ruSet, central);
          return Failure("RU list exhausted");
        }
        ru := ruSet[ruIt];
        ruIt := ruIt + 1;
      } else {
        if centralIt == |central| {
          NoFitBeyond(i + 1, Central26.Min(|cands|, total), nRus, ruSet, central);
          return Failure("RU list exhausted");
        }
        ru := central[centralIt];
        centralIt := centralIt + 1;
      }
      users := SetUser(users, cands[i].aid, ru);
      i := i + 1;
      if i == |cands| {
        break;
      }
    }
    r := Success(Finalized(users, cands[..i]));
  }

  /**
   * The table lists the served candidates, by ascending AID, and each holds
   * the RU of its position in the candidate list.
   */
  lemma {:induction false} UsersUpToSpec<R>(cands: seq<MasterInfo>, k: nat, nRus: nat, ruSet: seq<R>, central: seq<R>)
    requires UniqueAids(cands)
    requires k <= |cands| && Fits(k, nRus, ruSet, central)
    ensures AidsAscending(UsersUpTo(cands, k, nRus, ruSet, central))
    ensures forall a :: a in AidsOf(UsersUpTo(cands, k, nRus, ruSet, central)) <==>
                        exists j :: 0 <= j < k && cands[j].aid == a
    ensures forall j :: 0 <= j < k ==>
              Lookup(UsersUpTo(cands, k, nRus, ruSet, central), cands[j].aid) == Some(RuFor(j, nRus, ruSet, central))
  {
    if k > 0 {
      var prev := UsersUpTo(cands, k - 1, nRus, ruSet, central);
      var aid, ru := cands[k - 1].aid, RuFor(k - 1, nRus, ruSet, central);
      var cur := UsersUpTo(cands, k, nRus, ruSet, central);
      assert cur == SetUser(prev, aid, ru);
      UsersUpToSpec(cands, k - 1, nRus, ruSet, central);
      SetUserSpec(prev, aid, ru);
      forall a ensures a in AidsOf(cur) <==> exists j :: 0 <= j < k && cands[j].aid == a {
        if a == aid {
          assert cands[k - 1].aid == a;
        } else if j :| 0 <= j < k && cands[j].aid == a {
          assert j < k - 1;
        }
      }
      forall j | 0 <= j < k ensures Lookup(cur, cands[j].aid) == Some(RuFor(j, nRus, ruSet, central)) {
        if j < k - 1 {
          assert cands[j].aid != aid;
        }
      }
    }
  }

  /**
   * What the hand-out promises: the served candidates are the first
   * `min(|candidates|, total)` ones, every one of them is in the table with
   * the RU of its position, and nobody else is. It fails only when the RU
   * lists run out; when the lists hold `nRus` and `total - nRus` entries it
   * succeeds on every non-empty candidate list.
   */
  lemma AssignmentSpec<R>(cands: seq<MasterInfo>, total: nat, nRus: nat, ruSet: seq<R>, central: seq<R>)
    requires UniqueAids(cands)
    ensures var r := Assignment(cands, total, nRus, ruSet, central);
            r.Success? ==>
              var n := Central26.Min(|cands|, total);
              r.value.served == cands[..n] &&
              Fits(n, nRus, ruSet, central) &&
              AidsAscending(r.value.users) &&
              (forall a :: a in AidsOf(r.value.users) <==> exists j :: 0 <= j < n && cands[j].aid == a) &&
              (forall j :: 0 <= j < n ==> Lookup(r.value.users, cands[j].aid) == Some(RuFor(j, nRus, ruSet, central)))
    ensures cands != [] && nRus <= |ruSet| && total <= nRus + |central| ==>
              Assignment(cands, total, nRus, ruSet, central).Success?
  {
    var n := Central26.Min(|cands|, total);
    if Fits(n, nRus, ruSet, central) {
      UsersUpToSpec(cands, n, nRus, ruSet, central);
    }
  }

  ghost predicate Distinct<R>(s: seq<R>)
  {
    forall i, j :: 0 <= i < j < |s| ==> s[i] != s[j]
  }

  /**
   * With duplicate-free RU lists that share no RU, no two served
   * candidates end up on the same RU.
   */
  lemma NoSharedRu<R>(cands: seq<MasterInfo>, k: nat, nRus: nat, ruSet: seq<R>, central: seq<R>)
    requires UniqueAids(cands)
    requires k <= |cands| && Fits(k, nRus, ruSet, central)
    requires Distinct(ruSet) && Distinct(central)
    requires forall i, j :: 0 <= i < |ruSet| && 0 <= j < |central| ==> ruSet[i] != central[j]
    ensures forall i, j :: 0 <= i < j < k ==>
              Lookup(UsersUpTo(cands, k, nRus, ruSet, central), cands[i].aid) !=
              Lookup(UsersUpTo(cands, k, nRus, ruSet, central), cands[j].aid)
  {
    UsersUpToSpec(cands, k, nRus, ruSet, central);
    forall i, j | 0 <= i < j < k
      ensures RuFor(i, nRus, ruSet, central) != RuFor(j, nRus, ruSet, central)
    {
      FitsMonotone(i + 1, k, nRus, ruSet, central);
      FitsMonotone(j + 1, k, nRus, ruSet, central);
    }
  }
}
