/**
 * The part of `TrySendingBasicTf` both equal-split variants share once the
 * multimap of uplink candidates is built (ns3.41/rr-multi-user-scheduler.cc
 * and Old/basictf.cc): ask the HE RU library for an equal RU size, give the
 * candidates their RU types, erase the ones left out, turn the types into
 * RUs, check that the Basic Trigger Frame fits in the TXOP and decide how
 * long the stations are granted.
 */
module BasicTf {
  import opened Wrappers
  import opened HeRu
  import opened Stations
  import opened Ordering
  import opened BufferStatus
  import opened Grant
  import opened RuAssignment
  import opened EqualSplit
  import Central26

  /** How a call of `TrySendingBasicTf` ends. */
  datatype Outcome<R> =
    | Aborted(reason: string)
    | DlFallback
    | NoTransmission
    | UlGrant(users: seq<UserInfo<R>>, served: seq<MasterInfo>, receiver: Option<Mac>, duration: int)

  /**
   * The answers of the PHY, the HE RU library and the frame exchange
   * manager for the current channel: the RU lists of each size, whether
   * central 26-tone RUs are used, whether `TryAddMpdu` fits the trigger
   * frame sent to a receiver (`None` for broadcast), the timing of the TXOP
   * (`overhead` is protection, trigger frame, SIFS and acknowledgment) and
   * `CalculateTxDuration` for a size and a STA-ID.
   */
  datatype Phy<R> = Phy(
    rusOf: ToneClass -> seq<R>,
    centralOf: ToneClass -> seq<R>,
    useCentral26: bool,
    fits: Option<Mac> -> bool,
    ppduMaxTime: int,
    availableTime: Option<int>,
    overhead: int,
    txDuration: (nat, Aid) -> int)

  /** The duration of a frame of `size` octets for every user of the trigger frame, in its order. */
  function Durations<R>(users: seq<UserInfo<R>>, size: nat, txDuration: (nat, Aid) -> int): (r: seq<int>)
    ensures |r| == |users| && forall i :: 0 <= i < |users| ==> r[i] == txDuration(size, users[i].aid)
  {
    if users == [] then [] else [txDuration(size, users[0].aid)] + Durations(users[1..], size, txDuration)
  }

  /** The equal-sized RU count the type pass uses: the library's answer, clamped in ns-3.41. */
  function TypeCount(nCandidates: nat, lib: EqualSizedRus<ToneClass>, clampCount: bool): nat
  {
    if clampCount then Central26.Min(lib.nRus, nCandidates) else lib.nRus
  }

  /** The Basic Trigger Frame goes to the one served station, or is broadcast. */
  function Receiver(served: seq<MasterInfo>): Option<Mac>
  {
    if |served| == 1 then Some(served[0].address) else None
  }

  /** The number of candidates the type pass serves. */
  function Served(nCandidates: nat, lib: EqualSizedRus<ToneClass>, clampCount: bool, useCentral26: bool): nat
    requires Central26.IsSize(nCandidates)
  {
    TypeCount(nCandidates, lib, clampCount) +
    Central26.CentralCount(useCentral26, nCandidates, lib.nRus, lib.nCentral)
  }

  /** The type pass of `TrySendingBasicTf` over the multimap, asserting on every round. */
  function Types(ulCandidates: seq<Keyed<MasterInfo>>, lib: EqualSizedRus<ToneClass>, clampCount: bool, useCentral26: bool)
    : Result<Finalized<ToneClass>>
    requires Central26.IsSize(|ulCandidates|)
  {
    var cands := Items(ulCandidates);
    TypePass(cands, TypeCount(|cands|, lib, clampCount),
             Central26.CentralCount(useCentral26, |cands|, lib.nRus, lib.nCentral), lib.ruType, true)
  }

  /**
   * The outcome for a non-empty multimap `ulCandidates`, the folded
   * `maxBufferSize` and the library's answer `lib` for
   * `|ulCandidates|` stations.
   */
  function Solicitation<R>(ulCandidates: seq<Keyed<MasterInfo>>, maxBufferSize: uint32, ulPsduSize: uint32,
                           lib: EqualSizedRus<ToneClass>, clampCount: bool, phy: Phy<R>): Outcome<R>
    requires Central26.IsSize(|ulCandidates|)
  {
    var types := Types(ulCandidates, lib, clampCount, phy.useCentral26);
    if types.Failure? then Aborted(types.reason)
    else
      var placed := RuIndices(types.value.users, phy.rusOf, phy.centralOf);
      if placed.Failure? then Aborted(placed.reason)
      else
        var receiver := Receiver(types.value.served);
        if !phy.fits(receiver) then NoTransmission
        else
          match Decide(phy.ppduMaxTime, phy.availableTime, phy.overhead,
                       Durations(placed.value, maxBufferSize as nat, phy.txDuration),
                       Durations(placed.value, ulPsduSize as nat, phy.txDuration))
          case NoTx => NoTransmission
          case Grant(d) => UlGrant(placed.value, types.value.served, receiver, d)
  }

  /**
   * Lines 686-965 of ns3.41/rr-multi-user-scheduler.cc and 70-247 of
   * Old/basictf.cc.
   */
  method Solicit<R>(ulCandidates: seq<Keyed<MasterInfo>>, maxBufferSize: uint32, ulPsduSize: uint32,
                    lib: EqualSizedRus<ToneClass>, clampCount: bool, phy: Phy<R>)
    returns (res: Outcome<R>)
    requires Central26.IsSize(|ulCandidates|)
    ensures res == Solicitation(ulCandidates, maxBufferSize, ulPsduSize, lib, clampCount, phy)
  {
    var cands := Items(ulCandidates);
    var count: nat := lib.nRus;
    var nCentral := Central26.CentralCount(phy.useCentral26, |cands|, count, lib.nCentral);
    if clampCount {
      count := Central26.Min(count, |cands|);
    }
    var types := AssignTypes(cands, count, nCentral, lib.ruType, true);
    if types.Failure? {
      return Aborted(types.reason);
    }
    var placed := AssignRuIndices(types.value.users, phy.rusOf, phy.centralOf);
    if placed.Failure? {
      return Aborted(placed.reason);
    }
    var receiver := Receiver(types.value.served);
    if !phy.fits(receiver) {
      return NoTransmission;
    }
    var decision := ChooseDuration(phy.ppduMaxTime, phy.availableTime, phy.overhead,
                                   Durations(placed.value, maxBufferSize as nat, phy.txDuration),
                                   Durations(placed.value, ulPsduSize as nat, phy.txDuration));
    match decision
    case NoTx => res := NoTransmission;
    case Grant(d) => res := UlGrant(placed.value, types.value.served, receiver, d);
  }

  /** Tables with the same STA-IDs position by position list the same STA-IDs. */
  lemma {:induction false} AidsOfSame<R, S>(u: seq<UserInfo<R>>, v: seq<UserInfo<S>>)
    requires |u| == |v| && forall i :: 0 <= i < |u| ==> u[i].aid == v[i].aid
    ensures AidsOf(u) == AidsOf(v)
  {
    if u != [] {
      AidsOfSame(u[1..], v[1..]);
    }
  }

  /** A grant carries the tables of both passes. */
  lemma SolicitationGrant<R>(ulCandidates: seq<Keyed<MasterInfo>>, maxBufferSize: uint32, ulPsduSize: uint32,
                             lib: EqualSizedRus<ToneClass>, clampCount: bool, phy: Phy<R>)
    requires Central26.IsSize(|ulCandidates|)
    requires Solicitation(ulCandidates, maxBufferSize, ulPsduSize, lib, clampCount, phy).UlGrant?
    ensures var r := Solicitation(ulCandidates, maxBufferSize, ulPsduSize, lib, clampCount, phy);
            var types := Types(ulCandidates, lib, clampCount, phy.useCentral26);
            types.Success? && r.served == types.value.served &&
            RuIndices(types.value.users, phy.rusOf, phy.centralOf) == Success(r.users)
  {
  }

  /** `AssignRuIndices` keeps the STA-IDs of the table and their order. */
  lemma RuIndicesAids<R>(users: seq<UserInfo<ToneClass>>, rusOf: ToneClass -> seq<R>, centralOf: ToneClass -> seq<R>)
    requires RuIndices(users, rusOf, centralOf).Success?
    ensures var p := RuIndices(users, rusOf, centralOf).value;
            AidsOf(p) == AidsOf(users) && (AidsAscending(users) ==> AidsAscending(p))
  {
    var p := RuIndices(users, rusOf, centralOf).value;
    RuIndicesKeepAids(users, rusOf, centralOf);
    AidsOfSame(p, users);
  }

  lemma RuIndicesKeepAids<R>(users: seq<UserInfo<ToneClass>>, rusOf: ToneClass -> seq<R>, centralOf: ToneClass -> seq<R>)
    requires RuIndices(users, rusOf, centralOf).Success?
    ensures var p := RuIndices(users, rusOf, centralOf).value;
            |p| == |users| && forall i :: 0 <= i < |p| ==> p[i].aid == users[i].aid
  {
    RuIndicesSpec(users, rusOf, centralOf);
  }

  /**
   * A grant serves the first `count + nCentral26TonesRus` entries of the
   * multimap (the largest reports).
   */
  lemma SolicitationServes<R>(ulCandidates: seq<Keyed<MasterInfo>>, maxBufferSize: uint32, ulPsduSize: uint32,
                              lib: EqualSizedRus<ToneClass>, clampCount: bool, phy: Phy<R>)
    requires Central26.IsSize(|ulCandidates|)
    ensures var r := Solicitation(ulCandidates, maxBufferSize, ulPsduSize, lib, clampCount, phy);
            var cands := Items(ulCandidates);
            var n := Served(|cands|, lib, clampCount, phy.useCentral26);
            r.UlGrant? ==> n <= |cands| && r.served == cands[..n]
  {
    var r := Solicitation(ulCandidates, maxBufferSize, ulPsduSize, lib, clampCount, phy);
    if r.UlGrant? {
      SolicitationGrant(ulCandidates, maxBufferSize, ulPsduSize, lib, clampCount, phy);
      TypesServe(ulCandidates, lib, clampCount, phy.useCentral26);
    }
  }

  /**
   * With distinct AIDs in the multimap, exactly the served stations hold an
   * RU of the granted table, which keeps ascending STA-IDs.
   */
  lemma SolicitationAids<R>(ulCandidates: seq<Keyed<MasterInfo>>, maxBufferSize: uint32, ulPsduSize: uint32,
                            lib: EqualSizedRus<ToneClass>, clampCount: bool, phy: Phy<R>)
    requires Central26.IsSize(|ulCandidates|) && UniqueAids(Items(ulCandidates))
    requires Solicitation(ulCandidates, maxBufferSize, ulPsduSize, lib, clampCount, phy).UlGrant?
    ensures var r := Solicitation(ulCandidates, maxBufferSize, ulPsduSize, lib, clampCount, phy);
            var n := Served(|ulCandidates|, lib, clampCount, phy.useCentral26);
            AidsAscending(r.users) &&
            forall a :: a in AidsOf(r.users) <==> exists j :: 0 <= j < n && ulCandidates[j].item.aid == a
  {
    var r := Solicitation(ulCandidates, maxBufferSize, ulPsduSize, lib, clampCount, phy);
    SolicitationGrant(ulCandidates, maxBufferSize, ulPsduSize, lib, clampCount, phy);
    TypesServe(ulCandidates, lib, clampCount, phy.useCentral26);
    var users := Types(ulCandidates, lib, clampCount, phy.useCentral26).value.users;
    RuIndicesAids(users, phy.rusOf, phy.centralOf);
    SameAidsServe(r.users, users, ulCandidates, Served(|ulCandidates|, lib, clampCount, phy.useCentral26));
  }

  /** Users with the same STA-IDs as a table serving the first `n` entries serve them too. */
  lemma SameAidsServe<R, S>(placed: seq<UserInfo<R>>, users: seq<UserInfo<S>>, ulCandidates: seq<Keyed<MasterInfo>>, n: nat)
    requires n <= |ulCandidates|
    requires AidsOf(placed) == AidsOf(users) && AidsAscending(placed)
    requires forall a :: a in AidsOf(users) <==> exists j :: 0 <= j < n && Items(ulCandidates)[j].aid == a
    ensures forall a :: a in AidsOf(placed) <==> exists j :: 0 <= j < n && ulCandidates[j].item.aid == a
  {
    var cands := Items(ulCandidates);
    forall a
      ensures a in AidsOf(placed) <==> exists j :: 0 <= j < n && ulCandidates[j].item.aid == a
    {
      if a in AidsOf(placed) {
        var j :| 0 <= j < n && cands[j].aid == a;
        assert ulCandidates[j].item.aid == a;
      }
      if exists j :: 0 <= j < n && ulCandidates[j].item.aid == a {
        var j :| 0 <= j < n && ulCandidates[j].item.aid == a;
        assert cands[j].aid == a;
      }
    }
  }

  /** A grant serves a prefix of the multimap, entry by entry. */
  lemma SolicitationServesHead<R>(ulCandidates: seq<Keyed<MasterInfo>>, maxBufferSize: uint32, ulPsduSize: uint32,
                                  lib: EqualSizedRus<ToneClass>, clampCount: bool, phy: Phy<R>)
    requires Central26.IsSize(|ulCandidates|)
    requires Solicitation(ulCandidates, maxBufferSize, ulPsduSize, lib, clampCount, phy).UlGrant?
    ensures var r := Solicitation(ulCandidates, maxBufferSize, ulPsduSize, lib, clampCount, phy);
            |r.served| <= |ulCandidates| &&
            forall i :: 0 <= i < |r.served| ==> r.served[i] == ulCandidates[i].item
  {
    var r := Solicitation(ulCandidates, maxBufferSize, ulPsduSize, lib, clampCount, phy);
    SolicitationServes(ulCandidates, maxBufferSize, ulPsduSize, lib, clampCount, phy);
    assert r.served == Items(ulCandidates)[..|r.served|];
  }

  /** The table of a successful pass serves the head of the multimap, in STA-ID order. */
  lemma TypesServe(ulCandidates: seq<Keyed<MasterInfo>>, lib: EqualSizedRus<ToneClass>, clampCount: bool,
                   useCentral26: bool)
    requires Central26.IsSize(|ulCandidates|)
    requires Types(ulCandidates, lib, clampCount, useCentral26).Success?
    ensures var t := Types(ulCandidates, lib, clampCount, useCentral26).value;
            var cands := Items(ulCandidates);
            var n := Served(|cands|, lib, clampCount, useCentral26);
            n <= |cands| && t.served == cands[..n] &&
            (UniqueAids(cands) ==>
               AidsAscending(t.users) &&
               forall a :: a in AidsOf(t.users) <==> exists j :: 0 <= j < n && cands[j].aid == a)
  {
    var cands := Items(ulCandidates);
    if UniqueAids(cands) {
      TypePassSpec(cands, TypeCount(|cands|, lib, clampCount),
                   Central26.CentralCount(useCentral26, |cands|, lib.nRus, lib.nCentral), lib.ruType, true);
    }
  }

  /**
   * The trigger frame is unicast exactly when one station is served, and
   * the granted duration fits the maximum PPDU duration and what is left of
   * the TXOP.
   */
  lemma SolicitationTiming<R>(ulCandidates: seq<Keyed<MasterInfo>>, maxBufferSize: uint32, ulPsduSize: uint32,
                              lib: EqualSizedRus<ToneClass>, clampCount: bool, phy: Phy<R>)
    requires Central26.IsSize(|ulCandidates|)
    ensures var r := Solicitation(ulCandidates, maxBufferSize, ulPsduSize, lib, clampCount, phy);
            r.UlGrant? ==>
              (r.receiver.Some? <==> |r.served| == 1) &&
              (r.receiver.Some? ==> r.receiver.value == r.served[0].address) &&
              phy.fits(r.receiver) &&
              r.duration <= phy.ppduMaxTime &&
              (phy.availableTime.Some? ==> 0 <= r.duration <= phy.availableTime.value - phy.overhead)
  {
    var r := Solicitation(ulCandidates, maxBufferSize, ulPsduSize, lib, clampCount, phy);
    if r.UlGrant? {
      GrantFits(phy.ppduMaxTime, phy.availableTime, phy.overhead,
                Durations(r.users, maxBufferSize as nat, phy.txDuration),
                Durations(r.users, ulPsduSize as nat, phy.txDuration));
    }
  }

  /**
   * The assertion of the type pass holds whenever the library answers no
   * more equal-sized RUs than there are candidates, and then no more
   * candidates are served than there are. When it answers more and offers
   * central 26-tone RUs, the assertion fails, with or without the clamp of
   * ns-3.41: the central count was taken from the wrapped difference
   * before the clamp.
   */
  lemma TypesSucceed(ulCandidates: seq<Keyed<MasterInfo>>, lib: EqualSizedRus<ToneClass>, clampCount: bool,
                     useCentral26: bool)
    requires Central26.IsSize(|ulCandidates|)
    ensures lib.nRus <= |ulCandidates| ==>
              Types(ulCandidates, lib, clampCount, useCentral26).Success? &&
              Served(|ulCandidates|, lib, clampCount, useCentral26) <= |ulCandidates|
    ensures useCentral26 && |ulCandidates| < lib.nRus && 0 < lib.nCentral ==>
              Types(ulCandidates, lib, clampCount, useCentral26).Failure?
  {
    var n := |Items(ulCandidates)|;
    Central26.CentralCountFits(useCentral26, n, lib.nRus, lib.nCentral);
    if useCentral26 && n < lib.nRus && 0 < lib.nCentral {
      assert Central26.SizeSub(n, lib.nRus) > 0;
    }
  }

  /** Once the multimap is built, the scheduler no longer falls back to downlink. */
  lemma SolicitationNeverFallsBack<R>(ulCandidates: seq<Keyed<MasterInfo>>, maxBufferSize: uint32, ulPsduSize: uint32,
                                      lib: EqualSizedRus<ToneClass>, clampCount: bool, phy: Phy<R>)
    requires Central26.IsSize(|ulCandidates|)
    ensures Solicitation(ulCandidates, maxBufferSize, ulPsduSize, lib, clampCount, phy) != DlFallback
  {
  }
}
