/**
 * How the DL/UL-ratio scheduler (dlulratio_scheduler.cpp) builds the
 * TXVECTOR of a trigger frame and decides a Basic Trigger Frame.
 * `GetTxVectorForUlMu` walks the uplink station list, sorted by buffer
 * status first when BSRP is on, and keeps the stations it may solicit.
 * `FinalizeTxVector` hands out RUs, proportionally with `prop_scheduler` and
 * otherwise in equal sizes, and erases the candidates left without one.
 * `TrySendingBasicTf` folds the users' buffer-status reports and decides
 * how long they are granted. The HE RU library, the AP MAC's answers and the
 * PHY timing come in as parameters.
 */
module UlSolicitation {
  import opened Wrappers
  import opened HeRu
  import opened Stations
  import opened Ordering
  import opened BufferStatus
  import opened MuScheduler
  import opened UlAdmission
  import opened RuAssignment
  import BasicTf
  import Grant
  import RuPacker
  import PropScheduler
  import Central26

  // ---------------------------------------------------------------------
  // Uplink solicitation candidates (GetTxVectorForUlMu)
  // ---------------------------------------------------------------------

  /** The answers of the AP MAC the candidate filter consults. */
  datatype StationView = StationView(
    /** `GetMaxBufferStatus`: the largest Queue Size the station reported. */
    status: Mac -> byte,
    /** The AID is in the station list of the current link. */
    onLink: Aid -> bool,
    /** A Block Ack agreement is established, as recipient, for the station and TID. */
    baAgreement: (Mac, nat) -> bool)

  /**
   * Whether a registry entry is solicited. `statusFilter` (Basic trigger
   * with BSRP on) also drops stations that reported an empty buffer.
   */
  predicate Eligible(view: StationView, statusFilter: bool, info: MasterInfo)
  {
    (statusFilter ==> view.status(info.address) > 0) &&
    view.onLink(info.aid) &&
    HasAgreement(view.baAgreement, info.address)
  }

  function EligibleIn(view: StationView, statusFilter: bool): MasterInfo -> bool
  {
    info => Eligible(view, statusFilter, info)
  }

  /** `m_staListUl.sort` by non-increasing buffer status (`std::list::sort` is stable). */
  function SortByStatus(l: seq<MasterInfo>, status: Mac -> byte): seq<MasterInfo>
  {
    Items(SortDesc(ByStatus(l, status)))
  }

  /**
   * The sorted list is a permutation of the registry, in non-increasing
   * buffer status, and stations with the same status keep their order.
   */
  lemma SortByStatusSpec(l: seq<MasterInfo>, status: Mac -> byte)
    ensures multiset(SortByStatus(l, status)) == multiset(l)
    ensures forall i, j :: 0 <= i < j < |SortByStatus(l, status)| ==>
              status(SortByStatus(l, status)[i].address) >= status(SortByStatus(l, status)[j].address)
    ensures forall k :: WithKey(ByStatus(SortByStatus(l, status), status), k) == WithKey(ByStatus(l, status), k)
  {
    var keyed := ByStatus(l, status);
    var sorted := SortDesc(keyed);
    var r := Items(sorted);
    assert r == SortByStatus(l, status);
    SortDescSpec(keyed);
    SortDescItems(keyed);
    ItemsOfByStatus(l, status);
    SortedKeyedByStatus(keyed, status);
    ByStatusOfItems(sorted, status);
    assert NonIncreasing(sorted);
    forall i, j | 0 <= i < j < |r| ensures status(r[i].address) >= status(r[j].address) {
      assert sorted[i].key >= sorted[j].key;
    }
  }

  lemma SortedKeyedByStatus(keyed: seq<Keyed<MasterInfo>>, status: Mac -> byte)
    requires KeyedByStatus(keyed, status)
    ensures KeyedByStatus(SortDesc(keyed), status)
  {
    var sorted := SortDesc(keyed);
    SortDescSpec(keyed);
    forall i | 0 <= i < |sorted|
      ensures sorted[i].key == status(sorted[i].item.address) as int
    {
      assert sorted[i] in multiset(keyed);
      var j :| 0 <= j < |keyed| && keyed[j] == sorted[i];
    }
  }

  /** Every candidate is a solicitable registry entry; the order is the registry's. */
  lemma CandidatesSpec(l: seq<MasterInfo>, view: StationView, statusFilter: bool)
    ensures var c := Filter(l, EligibleIn(view, statusFilter));
            Subsequence(c, l) &&
            (forall x :: x in c <==> x in l && Eligible(view, statusFilter, x)) &&
            (forall i :: 0 <= i < |c| ==> HasAgreement(view.baAgreement, c[i].address) && view.onLink(c[i].aid)) &&
            (statusFilter ==> forall i :: 0 <= i < |c| ==> view.status(c[i].address) > 0)
  {
    FilterSubsequence(l, EligibleIn(view, statusFilter));
    var c := Filter(l, EligibleIn(view, statusFilter));
    assert forall i :: 0 <= i < |c| ==> EligibleIn(view, statusFilter)(c[i]);
  }

  /** Candidates drawn from the sorted registry come in non-increasing status. */
  lemma SortedCandidates(l: seq<MasterInfo>, view: StationView)
    ensures var c := Filter(SortByStatus(l, view.status), EligibleIn(view, true));
            forall i, j :: 0 <= i < j < |c| ==> view.status(c[i].address) >= view.status(c[j].address)
  {
    var r := SortByStatus(l, view.status);
    SortByStatusSpec(l, view.status);
    var keyed := ByStatus(r, view.status);
    assert NonIncreasing(keyed);
    FilterKeyed(r, view);
    FilterSorted(keyed, KeyedEligible(view));
  }

  function KeyedEligible(view: StationView): Keyed<MasterInfo> -> bool
  {
    (e: Keyed<MasterInfo>) => Eligible(view, true, e.item)
  }

  lemma {:induction false} FilterKeyed(l: seq<MasterInfo>, view: StationView)
    ensures ByStatus(Filter(l, EligibleIn(view, true)), view.status) ==
            Filter(ByStatus(l, view.status), KeyedEligible(view))
  {
    if l != [] {
      FilterKeyed(l[1..], view);
      assert ByStatus(l, view.status)[1..] == ByStatus(l[1..], view.status);
      var head := if Eligible(view, true, l[0]) then [l[0]] else [];
      assert Filter(l, EligibleIn(view, true)) == head + Filter(l[1..], EligibleIn(view, true));
      ByStatusAppend(head, Filter(l[1..], EligibleIn(view, true)), view.status);
    }
  }

  // ---------------------------------------------------------------------
  // The list the candidate loop walks
  // ---------------------------------------------------------------------

  /** A station list with unique AIDs holds each entry once. */
  lemma {:induction false} CountUnique(l: seq<MasterInfo>, x: MasterInfo)
    requires UniqueAids(l)
    ensures multiset(l)[x] <= 1
  {
    if l != [] {
      var t := l[1..];
      assert l == [l[0]] + t;
      assert UniqueAids(t) by {
        forall i, j | 0 <= i < j < |t| ensures t[i].aid != t[j].aid {
          assert t[i] == l[i + 1] && t[j] == l[j + 1];
        }
      }
      CountUnique(t, x);
      if l[0] == x {
        forall k | 0 <= k < |t| ensures t[k] != x {
          assert t[k] == l[k + 1];
        }
        assert multiset(t)[x] == 0;
      }
    }
  }

  /** Reordering a list keeps its AIDs unique. */
  lemma UniqueAidsPermutation(a: seq<MasterInfo>, b: seq<MasterInfo>)
    requires multiset(a) == multiset(b) && UniqueAids(a)
    ensures UniqueAids(b)
  {
    forall i, j | 0 <= i < j < |b| ensures b[i].aid != b[j].aid {
      assert b[i] in multiset(a) && b[j] in multiset(a);
      if b[i] == b[j] {
        var x := b[i];
        assert b == b[..j] + b[j..];
        assert b[..j][i] == x && b[j..][0] == x;
        assert multiset(b[..j])[x] >= 1 && multiset(b[j..])[x] >= 1;
        assert multiset(b)[x] == multiset(b[..j])[x] + multiset(b[j..])[x];
        CountUnique(a, x);
        assert false;
      } else {
        var p :| 0 <= p < |a| && a[p] == b[i];
        var q :| 0 <= q < |a| && a[q] == b[j];
        assert p != q;
      }
    }
  }

  /** The list `GetTxVectorForUlMu` walks: sorted by buffer status first when `sort`. */
  function WalkOrder(l: seq<MasterInfo>, status: Mac -> byte, sort: bool): seq<MasterInfo>
  {
    if sort then SortByStatus(l, status) else l
  }

  /** Sorting `m_staListUl` in place keeps its entries, so its AIDs stay unique. */
  lemma WalkOrderPermutes(l: seq<MasterInfo>, status: Mac -> byte, sort: bool)
    ensures multiset(WalkOrder(l, status, sort)) == multiset(l)
    ensures UniqueAids(l) ==> UniqueAids(WalkOrder(l, status, sort))
  {
    if sort {
      SortByStatusSpec(l, status);
    }
    if UniqueAids(l) {
      UniqueAidsPermutation(l, WalkOrder(l, status, sort));
    }
  }

  /**
   * The stations the loop of `GetTxVectorForUlMu` appends to `m_candidates`.
   * `sortAndFilter` holds for a Basic Trigger Frame with BSRP on: the list
   * is sorted first and stations that reported an empty buffer are skipped.
   */
  function UlCandidates(l: seq<MasterInfo>, view: StationView, sortAndFilter: bool): (c: seq<MasterInfo>)
    ensures |c| <= |l|
  {
    Filter(WalkOrder(l, view.status, sortAndFilter), EligibleIn(view, sortAndFilter))
  }

  /**
   * The candidates are a subsequence of the walked list, which is the
   * registry reordered; they are exactly the registry entries that may be
   * solicited; after the sort they come in non-increasing buffer status;
   * and no AID appears twice.
   */
  lemma UlCandidatesSpec(l: seq<MasterInfo>, view: StationView, sortAndFilter: bool)
    ensures var c := UlCandidates(l, view, sortAndFilter);
            Subsequence(c, WalkOrder(l, view.status, sortAndFilter)) &&
            (forall x :: x in c <==> x in l && Eligible(view, sortAndFilter, x)) &&
            (sortAndFilter ==> forall i, j :: 0 <= i < j < |c| ==> view.status(c[i].address) >= view.status(c[j].address)) &&
            (UniqueAids(l) ==> UniqueAids(c))
  {
    var walk := WalkOrder(l, view.status, sortAndFilter);
    WalkOrderPermutes(l, view.status, sortAndFilter);
    assert forall x :: x in walk <==> x in multiset(walk);
    if sortAndFilter {
      SortedCandidates(l, view);
    }
    CandidatesSpec(walk, view, sortAndFilter);
    if UniqueAids(l) {
      FilterUnique(walk, EligibleIn(view, sortAndFilter));
    }
  }

  /**
   * The loop of `GetTxVectorForUlMu` over the walked list: the empty-buffer
   * check, `canBeSolicited`, then the scan of TIDs 0..7 for a Block Ack
   * agreement.
   */
  method CollectCandidates(walk: seq<MasterInfo>, view: StationView, statusFilter: bool)
    returns (candidates: seq<MasterInfo>)
    ensures candidates == Filter(walk, EligibleIn(view, statusFilter))
  {
    candidates := [];
    var i := 0;
    while i < |walk|
      invariant 0 <= i <= |walk|
      invariant candidates == Filter(walk[..i], EligibleIn(view, statusFilter))
    {
      var sta := walk[i];
      FilterAppend(walk[..i], sta, EligibleIn(view, statusFilter));
      assert walk[..i + 1] == walk[..i] + [sta];
      i := i + 1;
      if statusFilter && view.status(sta.address) == 0 {
        continue;
      }
      if !view.onLink(sta.aid) {
        continue;
      }
      var tid := 0;
      while tid < 8 && !view.baAgreement(sta.address, tid)
        invariant 0 <= tid <= 8
        invariant forall t :: 0 <= t < tid ==> !view.baAgreement(sta.address, t)
      {
        tid := tid + 1;
      }
      if tid == 8 {
        continue;
      }
      candidates := candidates + [sta];
    }
    assert walk[..i] == walk;
  }

  // ---------------------------------------------------------------------
  // FinalizeTxVector
  // ---------------------------------------------------------------------

  /**
   * The width-to-limit chain (dlulratio_scheduler.cpp:950-962 and its copies in
   * `FinalizeTxVector`): the number of 26-tone RUs in the channel, which
   * caps how many stations an equal split serves; 9 for a width outside
   * the chain.
   */
  function Limit(mhz: nat): (r: nat)
    ensures WidthOf(mhz).Some? ==> r == Budget(WidthOf(mhz).value)
    ensures mhz == 160 ==> r == 2 * Budget(W80)
    ensures WidthOf(mhz).None? && mhz != 160 ==> r == Budget(W20)
  {
    if mhz == 20 then 9
    else if mhz == 40 then 18
    else if mhz == 80 then 37
    else if mhz == 160 then 74
    else 9
  }

  /**
   * The HE RU library for the current channel: the equal-sized RUs it
   * settles on for a number of stations (`GetEqualSizedRusForStations`),
   * the RUs of a size (`GetRusOfType`) and the central 26-tone RUs beside
   * RUs of a size (`GetCentral26TonesRus`).
   */
  datatype Library = Library(equalSized: nat -> EqualSizedRus<ToneClass>,
                             rusOf: ToneClass -> seq<Ru>, centralOf: ToneClass -> seq<Ru>)

  /** The library's answer for the candidate count clamped to the limit. */
  function EqualAnswer(nCandidates: nat, mhz: nat, lib: Library): EqualSizedRus<ToneClass>
  {
    lib.equalSized(Central26.Min(nCandidates, Limit(mhz)))
  }

  /** The equal-split branch of `FinalizeTxVector`. */
  function EqualSplitFinalize(cands: seq<MasterInfo>, mhz: nat, lib: Library, useCentral26: bool)
    : Result<Finalized<Ru>>
    requires Central26.IsSize(|cands|)
  {
    var a := EqualAnswer(|cands|, mhz, lib);
    var nCentral := Central26.CentralCount(useCentral26, |cands|, a.nRus, a.nCentral);
    Assignment(cands, a.nRus + nCentral, a.nRus, lib.rusOf(a.ruType), lib.centralOf(a.ruType))
  }

  /**
   * The equal split serves the first `nRusAssigned + nCentral26TonesRus`
   * candidates (all of them when the library offers more), no more than
   * `nRusAssigned` without central RUs, and never more central 26-tone RUs
   * than the library offered. It succeeds whenever both RU lists are long
   * enough.
   */
  lemma EqualSplitServed(cands: seq<MasterInfo>, mhz: nat, lib: Library, useCentral26: bool)
    requires Central26.IsSize(|cands|) && UniqueAids(cands)
    ensures var a := EqualAnswer(|cands|, mhz, lib);
            var nCentral := Central26.CentralCount(useCentral26, |cands|, a.nRus, a.nCentral);
            var n := Central26.Min(|cands|, a.nRus + nCentral);
            (a.nRus <= |cands| ==> n == a.nRus + nCentral && nCentral <= a.nCentral) &&
            (!useCentral26 ==> n == Central26.Min(|cands|, a.nRus)) &&
            (cands != [] && a.nRus <= |lib.rusOf(a.ruType)| && nCentral <= |lib.centralOf(a.ruType)| ==>
               EqualSplitFinalize(cands, mhz, lib, useCentral26).Success?)
  {
    var a := EqualAnswer(|cands|, mhz, lib);
    var nCentral := Central26.CentralCount(useCentral26, |cands|, a.nRus, a.nCentral);
    Central26.CentralCountFits(useCentral26, |cands|, a.nRus, a.nCentral);
    AssignmentSpec(cands, a.nRus + nCentral, a.nRus, lib.rusOf(a.ruType), lib.centralOf(a.ruType));
  }

  /**
   * On success the equal split serves the first n candidates, n as in
   * `EqualSplitServed`: served candidate j takes the j-th equal-sized RU,
   * or the (j - nRusAssigned)-th central 26-tone RU once the equal-sized
   * ones are handed out (`RuFor`); the users are listed by STA-ID.
   */
  lemma EqualSplitFinalizeSpec(cands: seq<MasterInfo>, mhz: nat, lib: Library, useCentral26: bool)
    requires Central26.IsSize(|cands|) && UniqueAids(cands)
    ensures var a := EqualAnswer(|cands|, mhz, lib);
            var nCentral := Central26.CentralCount(useCentral26, |cands|, a.nRus, a.nCentral);
            var n := Central26.Min(|cands|, a.nRus + nCentral);
            var rus := lib.rusOf(a.ruType);
            var central := lib.centralOf(a.ruType);
            var r := EqualSplitFinalize(cands, mhz, lib, useCentral26);
            r.Success? ==>
              Fits(n, a.nRus, rus, central) &&
              r.value.served == cands[..n] &&
              AidsAscending(r.value.users) &&
              (forall x :: x in AidsOf(r.value.users) <==> exists j :: 0 <= j < n && cands[j].aid == x) &&
              (forall j :: 0 <= j < n ==> Lookup(r.value.users, cands[j].aid) == Some(RuFor(j, a.nRus, rus, central)))
  {
    var a := EqualAnswer(|cands|, mhz, lib);
    var nCentral := Central26.CentralCount(useCentral26, |cands|, a.nRus, a.nCentral);
    var rus, central := lib.rusOf(a.ruType), lib.centralOf(a.ruType);
    var r := Assignment(cands, a.nRus + nCentral, a.nRus, rus, central);
    assert r == EqualSplitFinalize(cands, mhz, lib, useCentral26);
    AssignmentSpec(cands, a.nRus + nCentral, a.nRus, rus, central);
  }


  /**
   * The proportional branch of `FinalizeTxVector` for a Basic Trigger
   * Frame: candidate i takes the i-th RU of the packer's allocation until
   * either runs out; the candidates after that are erased.
   */
  function PropFinalize(cands: seq<MasterInfo>, allocation: seq<Ru>): Result<Finalized<Ru>>
  {
    Assignment(cands, |allocation|, |allocation|, allocation, [])
  }

  /**
   * The proportional branch serves the first min(|candidates|, |allocation|)
   * candidates, each with the RU of its position in the allocation, and
   * never fails on a non-empty candidate list.
   */
  lemma PropFinalizeSpec(cands: seq<MasterInfo>, allocation: seq<Ru>)
    requires UniqueAids(cands)
    ensures var r := PropFinalize(cands, allocation);
            var n := Central26.Min(|cands|, |allocation|);
            (cands != [] ==> r.Success?) &&
            (r.Success? ==>
               r.value.served == cands[..n] &&
               AidsAscending(r.value.users) &&
               (forall x :: x in AidsOf(r.value.users) <==> exists j :: 0 <= j < n && cands[j].aid == x) &&
               (forall j :: 0 <= j < n ==> Lookup(r.value.users, cands[j].aid) == Some(allocation[j])))
  {
    AssignmentSpec(cands, |allocation|, |allocation|, allocation, []);
  }

  /** What `prop_scheduler_fun` reads for each uplink candidate: its raw buffer status. */
  function Demands(cands: seq<MasterInfo>, status: Mac -> byte): (d: seq<nat>)
    ensures |d| == |cands| && forall i :: 0 <= i < |cands| ==> d[i] == status(cands[i].address) as nat
  {
    if cands == [] then [] else [status(cands[0].address) as nat] + Demands(cands[1..], status)
  }

  /** The channel width in MHz and the two RU-allocation switches. */
  datatype Setup = Setup(mhz: nat, propScheduler: bool, useCentral26: bool)

  /**
   * `FinalizeTxVector` for a non-empty candidate list: the packer's RUs
   * for a Basic Trigger Frame with `prop_scheduler`, whose shares divide by
   * the candidates' summed reports, or the equal split. `allocation` is the
   * packer's answer.
   */
  function FinalizeFor(setup: Setup, basicTf: bool, cands: seq<MasterInfo>, status: Mac -> byte,
                       lib: Library, allocation: seq<Ru>): Result<Finalized<Ru>>
    requires Central26.IsSize(|cands|)
  {
    if basicTf && setup.propScheduler then
      if setup.mhz in {20, 40, 80} && RuPacker.Sum(Demands(cands, status)) == 0 then
        Failure("queue_sum is zero")
      else PropFinalize(cands, allocation)
    else EqualSplitFinalize(cands, setup.mhz, lib, setup.useCentral26)
  }

  /**
   * `GetTxVectorForUlMu` followed by `FinalizeTxVector`: the users of the
   * TXVECTOR and the candidates left in `m_candidates`; no user when no
   * station qualifies.
   */
  function TxVectorForUlMu(setup: Setup, enableBsrp: bool, basicTf: bool, l: seq<MasterInfo>,
                           view: StationView, lib: Library, allocation: seq<Ru>): Result<Finalized<Ru>>
    requires Central26.IsSize(|l|)
  {
    var cands := UlCandidates(l, view, basicTf && enableBsrp);
    if cands == [] then Success(Finalized([], []))
    else FinalizeFor(setup, basicTf, cands, view.status, lib, allocation)
  }

  /**
   * The allocation the proportional branch used is the one the packer
   * computes from the candidates' buffer reports for the channel width (its
   * properties are `PropScheduler.PackSpec`); there is none otherwise.
   */
  predicate PackedFor(setup: Setup, basicTf: bool, cands: seq<MasterInfo>, status: Mac -> byte, allocation: seq<Ru>)
  {
    if basicTf && setup.propScheduler && cands != [] &&
       (setup.mhz in {20, 40, 80} ==> RuPacker.Sum(Demands(cands, status)) > 0)
    then allocation == PropScheduler.Pack(Demands(cands, status), setup.mhz)
    else allocation == []
  }

  /**
   * `f` serves a prefix of `cands`, and its users, listed by STA-ID, are
   * exactly the served candidates.
   */
  predicate ServesPrefix(cands: seq<MasterInfo>, f: Finalized<Ru>)
  {
    |f.served| <= |cands| && f.served == cands[..|f.served|] &&
    AidsAscending(f.users) &&
    (forall x :: x in AidsOf(f.users) <==> exists j :: 0 <= j < |f.served| && f.served[j].aid == x)
  }

  /** Both branches of `FinalizeTxVector` serve a prefix of the candidates. */
  lemma AssignmentServesPrefix(cands: seq<MasterInfo>, total: nat, nRus: nat, ruSet: seq<Ru>, central: seq<Ru>)
    requires UniqueAids(cands)
    ensures var r := Assignment(cands, total, nRus, ruSet, central);
            r.Success? ==> ServesPrefix(cands, r.value)
  {
    AssignmentSpec(cands, total, nRus, ruSet, central);
  }

  /** Every candidate is a registry entry that may be solicited. */
  lemma UlCandidatesMembers(l: seq<MasterInfo>, view: StationView, sortAndFilter: bool)
    ensures forall x :: x in UlCandidates(l, view, sortAndFilter) ==> x in l && Eligible(view, sortAndFilter, x)
  {
    var walk := WalkOrder(l, view.status, sortAndFilter);
    WalkOrderPermutes(l, view.status, sortAndFilter);
    assert forall x :: x in walk ==> x in multiset(walk);
    CandidatesSpec(walk, view, sortAndFilter);
  }

  /** The candidates keep the registry's AIDs unique. */
  lemma UlCandidatesUnique(l: seq<MasterInfo>, view: StationView, sortAndFilter: bool)
    requires UniqueAids(l)
    ensures UniqueAids(UlCandidates(l, view, sortAndFilter))
  {
    WalkOrderPermutes(l, view.status, sortAndFilter);
    FilterUnique(WalkOrder(l, view.status, sortAndFilter), EligibleIn(view, sortAndFilter));
  }

  /**
   * With BSRP on, a Basic Trigger Frame's candidates all reported a
   * non-empty buffer, so the packer's division never meets a zero sum.
   */
  lemma BsrpDemandsPositive(l: seq<MasterInfo>, view: StationView)
    ensures var c := UlCandidates(l, view, true);
            c != [] ==> RuPacker.Sum(Demands(c, view.status)) > 0
  {
    var c := UlCandidates(l, view, true);
    if c != [] {
      UlCandidatesSpec(l, view, true);
      assert c[0] in c;
      RuPacker.SumNonNegTail(Demands(c, view.status));
    }
  }

  /**
   * The TXVECTOR serves a prefix of the candidates, and with BSRP on the
   * proportional branch of a Basic Trigger Frame never fails.
   */
  lemma TxVectorServes(setup: Setup, enableBsrp: bool, basicTf: bool, l: seq<MasterInfo>,
                       view: StationView, lib: Library, allocation: seq<Ru>)
    requires Central26.IsSize(|l|) && UniqueAids(l)
    ensures var c := UlCandidates(l, view, basicTf && enableBsrp);
            var r := TxVectorForUlMu(setup, enableBsrp, basicTf, l, view, lib, allocation);
            (basicTf && enableBsrp && setup.propScheduler ==> r.Success?) &&
            (r.Success? ==> ServesPrefix(c, r.value))
  {
    var c := UlCandidates(l, view, basicTf && enableBsrp);
    if c != [] {
      UlCandidatesUnique(l, view, basicTf && enableBsrp);
      if basicTf && setup.propScheduler {
        if enableBsrp {
          BsrpDemandsPositive(l, view);
        }
        PropBranchServes(c, allocation);
      } else {
        EqualBranchServes(c, setup.mhz, lib, setup.useCentral26);
      }
    }
  }

  lemma PropBranchServes(c: seq<MasterInfo>, allocation: seq<Ru>)
    requires UniqueAids(c)
    ensures c != [] ==> PropFinalize(c, allocation).Success?
    ensures PropFinalize(c, allocation).Success? ==> ServesPrefix(c, PropFinalize(c, allocation).value)
  {
    PropFinalizeSpec(c, allocation);
    AssignmentServesPrefix(c, |allocation|, |allocation|, allocation, []);
  }

  lemma EqualBranchServes(c: seq<MasterInfo>, mhz: nat, lib: Library, useCentral26: bool)
    requires Central26.IsSize(|c|) && UniqueAids(c)
    ensures var r := EqualSplitFinalize(c, mhz, lib, useCentral26);
            r.Success? ==> ServesPrefix(c, r.value)
  {
    var a := EqualAnswer(|c|, mhz, lib);
    var nCentral := Central26.CentralCount(useCentral26, |c|, a.nRus, a.nCentral);
    AssignmentServesPrefix(c, a.nRus + nCentral, a.nRus, lib.rusOf(a.ruType), lib.centralOf(a.ruType));
  }


  /**
   * `GetTxVectorForUlMu` on the uplink list: the list after the sort, the
   * TXVECTOR, and the packer's allocation (empty unless the proportional
   * branch ran).
   */
  method BuildTxVector(setup: Setup, enableBsrp: bool, basicTf: bool, l: seq<MasterInfo>,
                       view: StationView, lib: Library)
    returns (walked: seq<MasterInfo>, txVector: Result<Finalized<Ru>>, allocation: seq<Ru>)
    requires Central26.IsSize(|l|)
    ensures walked == WalkOrder(l, view.status, basicTf && enableBsrp)
    ensures txVector == TxVectorForUlMu(setup, enableBsrp, basicTf, l, view, lib, allocation)
    ensures PackedFor(setup, basicTf, UlCandidates(l, view, basicTf && enableBsrp), view.status, allocation)
  {
    var sortAndFilter := basicTf && enableBsrp;
    walked := WalkOrder(l, view.status, sortAndFilter);
    var cands := CollectCandidates(walked, view, sortAndFilter);
    if cands == [] {
      txVector, allocation := Success(Finalized([], [])), [];
    } else {
      txVector, allocation := FinalizeTxVector(setup, basicTf, cands, view.status, lib);
    }
  }

  /** `FinalizeTxVector` (dlulratio_scheduler.cpp:2045-2225) for the uplink candidates. */
  method FinalizeTxVector(setup: Setup, basicTf: bool, cands: seq<MasterInfo>, status: Mac -> byte, lib: Library)
    returns (txVector: Result<Finalized<Ru>>, allocation: seq<Ru>)
    requires Central26.IsSize(|cands|) && cands != []
    ensures txVector == FinalizeFor(setup, basicTf, cands, status, lib, allocation)
    ensures PackedFor(setup, basicTf, cands, status, allocation)
  {
    allocation := [];
    if basicTf && setup.propScheduler {
      var demands := Demands(cands, status);
      if setup.mhz in {20, 40, 80} && RuPacker.Sum(demands) == 0 {
        txVector := Failure("queue_sum is zero");
        return;
      }
      allocation := PropScheduler.PropSchedulerFun(demands, setup.mhz);
      txVector := AssignRus(cands, |allocation|, |allocation|, allocation, []);
    } else {
      var a := EqualAnswer(|cands|, setup.mhz, lib);
      var nCentral := Central26.CentralCount(setup.useCentral26, |cands|, a.nRus, a.nCentral);
      txVector := AssignRus(cands, a.nRus + nCentral, a.nRus, lib.rusOf(a.ruType), lib.centralOf(a.ruType));
    }
  }

  // ---------------------------------------------------------------------
  // TrySendingBasicTf
  // ---------------------------------------------------------------------

  /** How the DL/UL-ratio `TrySendingBasicTf` ends. */
  datatype Answer =
    | Aborted(reason: string)
    | Return(format: TxFormat)
    | Granted(users: seq<UserInfo<Ru>>, served: seq<MasterInfo>, duration: int)

  /**
   * The PHY and frame-exchange answers: whether `TryAddMpdu` fits the
   * trigger frame, the maximum PPDU duration, what remains of the TXOP
   * (`None` for `Time::Min()`), the protection, trigger-frame, SIFS and
   * acknowledgment overhead, and `CalculateTxDuration` for a size and a
   * STA-ID.
   */
  datatype Timing = Timing(fits: bool, ppduMaxTime: int, availableTime: Option<int>, overhead: int,
                           txDuration: (nat, Aid) -> int)

  /** The reports of the users of the TXVECTOR; `addressOf` is `GetMldOrLinkAddressByAid`. */
  function UserStatuses(users: seq<UserInfo<Ru>>, addressOf: Aid -> Mac, status: Mac -> byte): (r: seq<byte>)
    ensures |r| == |users| && forall k :: 0 <= k < |users| ==> r[k] == status(addressOf(users[k].aid))
  {
    seq(|users|, k requires 0 <= k < |users| => status(addressOf(users[k].aid)))
  }

  /**
   * The octets the proportional variant times for one user: its own
   * report, 255 standing for `UlPsduSize` and 254 counted as 254 units.
   */
  function OwnOctets(q: byte, ulPsduSize: uint32): nat
  {
    if q == Unknown then ulPsduSize as nat else q as nat * 256
  }

  /**
   * `bufferTxTime`'s inputs: each user's time for its own buffer with
   * `prop_scheduler`, for `maxBufferSize` otherwise.
   */
  function BufferDurations(prop: bool, users: seq<UserInfo<Ru>>, addressOf: Aid -> Mac, status: Mac -> byte,
                           ulPsduSize: uint32, maxBufferSize: uint32, txDuration: (nat, Aid) -> int): (r: seq<int>)
    ensures |r| == |users|
  {
    seq(|users|, k requires 0 <= k < |users| =>
      txDuration(if prop then OwnOctets(status(addressOf(users[k].aid)), ulPsduSize) else maxBufferSize as nat,
                 users[k].aid))
  }

  /** The part of `TrySendingBasicTf` after the TXVECTOR is built. */
  function Granting(setup: Setup, f: Finalized<Ru>, status: Mac -> byte, ulPsduSize: uint32,
                    addressOf: Aid -> Mac, timing: Timing): Answer
  {
    var maxBufferSize := MaxBuffer(UserStatuses(f.users, addressOf, status), ulPsduSize);
    if maxBufferSize == 0 then Return(DlMuTx)
    else if !timing.fits then Return(NoTx)
    else
      var decision := Grant.Decide(timing.ppduMaxTime, timing.availableTime, timing.overhead,
                                   BufferDurations(setup.propScheduler, f.users, addressOf, status, ulPsduSize,
                                                   maxBufferSize, timing.txDuration),
                                   BasicTf.Durations(f.users, ulPsduSize as nat, timing.txDuration));
      if decision.Grant? then Granted(f.users, f.served, decision.duration) else Return(NoTx)
  }

  /**
   * `TrySendingBasicTf` (dlulratio_scheduler.cpp:1309-1526) as a function of the uplink list
   * and the answers it consults. `allocation` is the packer's answer when
   * the proportional branch runs.
   */
  function BasicTfAnswer(setup: Setup, enableBsrp: bool, staListUl: seq<MasterInfo>, view: StationView,
                         ulPsduSize: uint32, addressOf: Aid -> Mac, lib: Library, allocation: seq<Ru>,
                         timing: Timing): Answer
    requires Central26.IsSize(|staListUl|)
  {
    if staListUl == [] then Return(SuTx)
    else if ulPsduSize == 0 then Aborted("The UlPsduSize attribute must be set to a non-null value")
    else
      var txVector := TxVectorForUlMu(setup, enableBsrp, true, staListUl, view, lib, allocation);
      if txVector.Failure? then Aborted(txVector.reason)
      else if txVector.value.users == [] then Return(DlMuTx)
      else Granting(setup, txVector.value, view.status, ulPsduSize, addressOf, timing)
  }

  /**
   * Single-user transmission exactly when the uplink list is empty; an
   * abort only on a null `UlPsduSize` or a failed TXVECTOR; a fallback to
   * downlink when no station qualifies.
   */
  lemma AnswerEarlyExits(setup: Setup, enableBsrp: bool, staListUl: seq<MasterInfo>, view: StationView,
                         ulPsduSize: uint32, addressOf: Aid -> Mac, lib: Library, allocation: seq<Ru>,
                         timing: Timing)
    requires Central26.IsSize(|staListUl|)
    ensures var r := BasicTfAnswer(setup, enableBsrp, staListUl, view, ulPsduSize, addressOf, lib, allocation, timing);
            (r == Return(SuTx) <==> staListUl == []) &&
            (r.Aborted? <==>
               staListUl != [] &&
               (ulPsduSize == 0 || TxVectorForUlMu(setup, enableBsrp, true, staListUl, view, lib, allocation).Failure?)) &&
            (staListUl != [] && ulPsduSize != 0 && UlCandidates(staListUl, view, enableBsrp) == [] ==>
               r == Return(DlMuTx))
  {
  }

  /**
   * With a TXVECTOR that has users, the scheduler falls back to downlink
   * exactly when every user reported an empty buffer.
   */
  lemma DlFallbackIff(setup: Setup, enableBsrp: bool, staListUl: seq<MasterInfo>, view: StationView,
                      ulPsduSize: uint32, addressOf: Aid -> Mac, lib: Library, allocation: seq<Ru>,
                      timing: Timing)
    requires Central26.IsSize(|staListUl|) && staListUl != [] && ulPsduSize != 0
    requires TxVectorForUlMu(setup, enableBsrp, true, staListUl, view, lib, allocation).Success?
    ensures var users := TxVectorForUlMu(setup, enableBsrp, true, staListUl, view, lib, allocation).value.users;
            BasicTfAnswer(setup, enableBsrp, staListUl, view, ulPsduSize, addressOf, lib, allocation, timing)
              == Return(DlMuTx) <==>
            forall k :: 0 <= k < |users| ==> view.status(addressOf(users[k].aid)) == 0
  {
    var users := TxVectorForUlMu(setup, enableBsrp, true, staListUl, view, lib, allocation).value.users;
    var reports := UserStatuses(users, addressOf, view.status);
    MaxBufferPositive(reports, ulPsduSize);
    assert (exists i :: 0 <= i < |reports| && reports[i] != 0) <==>
           !(forall k :: 0 <= k < |users| ==> view.status(addressOf(users[k].aid)) == 0);
  }

  /**
   * With BSRP on, and the AP mapping each registered AID back to its
   * address, the scheduler falls back to downlink only when the TXVECTOR
   * has no user: every solicited station reported a non-empty buffer.
   */
  lemma BsrpFallbackOnlyWithoutUsers(setup: Setup, staListUl: seq<MasterInfo>, view: StationView,
                                     ulPsduSize: uint32, addressOf: Aid -> Mac, lib: Library,
                                     allocation: seq<Ru>, timing: Timing)
    requires Central26.IsSize(|staListUl|) && UniqueAids(staListUl) && ulPsduSize != 0
    requires forall x :: x in staListUl ==> addressOf(x.aid) == x.address
    ensures var t := TxVectorForUlMu(setup, true, true, staListUl, view, lib, allocation);
            BasicTfAnswer(setup, true, staListUl, view, ulPsduSize, addressOf, lib, allocation, timing)
              == Return(DlMuTx) ==>
            t.Success? && t.value.users == []
  {
    var t := TxVectorForUlMu(setup, true, true, staListUl, view, lib, allocation);
    if staListUl != [] && t.Success? && t.value.users != [] {
      var f := t.value;
      var c := UlCandidates(staListUl, view, true);
      TxVectorServes(setup, true, true, staListUl, view, lib, allocation);
      assert ServesPrefix(c, f);
      AidsOfIndex(f.users, 0);
      var j :| 0 <= j < |f.served| && f.served[j].aid == f.users[0].aid;
      assert f.served[j] == c[j] && c[j] in c;
      UlCandidatesMembers(staListUl, view, true);
      assert view.status(addressOf(f.users[0].aid)) > 0;
      DlFallbackIff(setup, true, staListUl, view, ulPsduSize, addressOf, lib, allocation, timing);
    }
  }


  /**
   * A grant goes to a non-empty prefix of the candidates: registered
   * stations that may be solicited, listed by STA-ID in the TXVECTOR.
   */
  lemma GrantedServes(setup: Setup, enableBsrp: bool, staListUl: seq<MasterInfo>, view: StationView,
                      ulPsduSize: uint32, addressOf: Aid -> Mac, lib: Library, allocation: seq<Ru>,
                      timing: Timing)
    requires Central26.IsSize(|staListUl|) && UniqueAids(staListUl)
    ensures var r := BasicTfAnswer(setup, enableBsrp, staListUl, view, ulPsduSize, addressOf, lib, allocation, timing);
            var c := UlCandidates(staListUl, view, enableBsrp);
            r.Granted? ==>
              0 < |r.served| <= |c| && r.served == c[..|r.served|] &&
              AidsAscending(r.users) &&
              (forall x :: x in AidsOf(r.users) <==> exists j :: 0 <= j < |r.served| && r.served[j].aid == x) &&
              (forall i :: 0 <= i < |r.served| ==> r.served[i] in staListUl && Eligible(view, enableBsrp, r.served[i]))
  {
    var r := BasicTfAnswer(setup, enableBsrp, staListUl, view, ulPsduSize, addressOf, lib, allocation, timing);
    if r.Granted? {
      var f := TxVectorForUlMu(setup, enableBsrp, true, staListUl, view, lib, allocation).value;
      var c := UlCandidates(staListUl, view, enableBsrp);
      assert r.users == f.users && r.served == f.served && f.users != [];
      TxVectorServes(setup, enableBsrp, true, staListUl, view, lib, allocation);
      assert ServesPrefix(c, f);
      AidsOfIndex(f.users, 0);
      UlCandidatesMembers(staListUl, view, enableBsrp);
      forall i | 0 <= i < |r.served|
        ensures r.served[i] in staListUl && Eligible(view, enableBsrp, r.served[i])
      {
        assert r.served[i] == c[i] && c[i] in c;
      }
    }
  }

  /**
   * With BSRP on, every station a grant serves reported at least as much
   * as every candidate left out of the TXVECTOR.
   */
  lemma GrantedTakesLargest(setup: Setup, staListUl: seq<MasterInfo>, view: StationView,
                            ulPsduSize: uint32, addressOf: Aid -> Mac, lib: Library, allocation: seq<Ru>,
                            timing: Timing)
    requires Central26.IsSize(|staListUl|) && UniqueAids(staListUl)
    ensures var r := BasicTfAnswer(setup, true, staListUl, view, ulPsduSize, addressOf, lib, allocation, timing);
            var c := UlCandidates(staListUl, view, true);
            r.Granted? ==>
              forall i, j :: 0 <= i < |r.served| <= j < |c| ==>
                view.status(r.served[i].address) >= view.status(c[j].address)
  {
    var r := BasicTfAnswer(setup, true, staListUl, view, ulPsduSize, addressOf, lib, allocation, timing);
    if r.Granted? {
      var f := TxVectorForUlMu(setup, true, true, staListUl, view, lib, allocation).value;
      var c := UlCandidates(staListUl, view, true);
      assert r.served == f.served;
      TxVectorServes(setup, true, true, staListUl, view, lib, allocation);
      assert ServesPrefix(c, f);
      UlCandidatesSpec(staListUl, view, true);
      forall i, j | 0 <= i < |r.served| <= j < |c|
        ensures view.status(r.served[i].address) >= view.status(c[j].address)
      {
        assert r.served[i] == c[i];
      }
    }
  }

  /**
   * A grant is never longer than the maximum PPDU duration nor, with a
   * limited TXOP, than what is left of it, and it is only given when the
   * trigger frame fits.
   */
  lemma GrantedFits(setup: Setup, enableBsrp: bool, staListUl: seq<MasterInfo>, view: StationView,
                    ulPsduSize: uint32, addressOf: Aid -> Mac, lib: Library, allocation: seq<Ru>,
                    timing: Timing)
    requires Central26.IsSize(|staListUl|)
    ensures var r := BasicTfAnswer(setup, enableBsrp, staListUl, view, ulPsduSize, addressOf, lib, allocation, timing);
            r.Granted? ==>
              timing.fits &&
              r.duration <= timing.ppduMaxTime &&
              (timing.availableTime.Some? ==> r.duration <= timing.availableTime.value - timing.overhead) &&
              (timing.availableTime.Some? || timing.ppduMaxTime >= 0 ==> r.duration >= 0)
  {
    var r := BasicTfAnswer(setup, enableBsrp, staListUl, view, ulPsduSize, addressOf, lib, allocation, timing);
    if r.Granted? {
      var f := TxVectorForUlMu(setup, enableBsrp, true, staListUl, view, lib, allocation).value;
      var maxBufferSize := MaxBuffer(UserStatuses(f.users, addressOf, view.status), ulPsduSize);
      Grant.GrantFits(timing.ppduMaxTime, timing.availableTime, timing.overhead,
                      BufferDurations(setup.propScheduler, f.users, addressOf, view.status, ulPsduSize,
                                      maxBufferSize, timing.txDuration),
                      BasicTf.Durations(f.users, ulPsduSize as nat, timing.txDuration));
    }
  }

  /** The fold of `TrySendingBasicTf` over the users of the TXVECTOR. */
  method FoldUsers(users: seq<UserInfo<Ru>>, addressOf: Aid -> Mac, status: Mac -> byte, ulPsduSize: uint32)
    returns (maxBufferSize: uint32)
    ensures maxBufferSize == MaxBuffer(UserStatuses(users, addressOf, status), ulPsduSize)
  {
    maxBufferSize := 0;
    var i := 0;
    while i < |users|
      invariant 0 <= i <= |users|
      invariant maxBufferSize == MaxBuffer(UserStatuses(users[..i], addressOf, status), ulPsduSize)
    {
      var queueSize := status(addressOf(users[i].aid));
      assert UserStatuses(users[..i + 1], addressOf, status)[..i] == UserStatuses(users[..i], addressOf, status);
      FoldStep(maxBufferSize, queueSize, ulPsduSize);
      if queueSize == Unknown {
        maxBufferSize := Max(maxBufferSize, ulPsduSize);
      } else if queueSize == NotLimited {
        maxBufferSize := Unbounded;
      } else {
        maxBufferSize := Max(maxBufferSize, (queueSize as int * 256) as uint32);
      }
      i := i + 1;
    }
    assert users[..i] == users;
  }

  /** The fold, the `TryAddMpdu` check and the duration choice, once the TXVECTOR has users. */
  method GrantFor(setup: Setup, f: Finalized<Ru>, status: Mac -> byte, ulPsduSize: uint32,
                  addressOf: Aid -> Mac, timing: Timing) returns (res: Answer)
    ensures res == Granting(setup, f, status, ulPsduSize, addressOf, timing)
  {
    var maxBufferSize := FoldUsers(f.users, addressOf, status, ulPsduSize);
    if maxBufferSize == 0 {
      return Return(DlMuTx);
    }
    if !timing.fits {
      return Return(NoTx);
    }
    var decision := Grant.ChooseDuration(
      timing.ppduMaxTime, timing.availableTime, timing.overhead,
      BufferDurations(setup.propScheduler, f.users, addressOf, status, ulPsduSize, maxBufferSize, timing.txDuration),
      BasicTf.Durations(f.users, ulPsduSize as nat, timing.txDuration));
    if decision.Grant? {
      res := Granted(f.users, f.served, decision.duration);
    } else {
      res := Return(NoTx);
    }
  }
}
