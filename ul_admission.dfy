/**
 * Which stations a Basic Trigger Frame solicits, as the two ns-3 variants of
 * `TrySendingBasicTf` decide it (ns3.41/rr-multi-user-scheduler.cc and
 * Old/basictf.cc): collect the stations of the primary AC, fold their
 * buffer-status reports into `maxBufferSize`, and emplace the stations to
 * serve into a `std::multimap<uint8_t, CandidateInfo, std::greater<uint8_t>>`
 * keyed by their report. The multimap is a sequence kept by `Emplace`.
 */
module UlAdmission {
  import opened Wrappers
  import opened Stations
  import opened Ordering
  import opened BufferStatus

  /** A Block Ack agreement is established with the station for one of the TIDs 0..7. */
  predicate HasAgreement(ba: (Mac, nat) -> bool, address: Mac)
  {
    exists tid :: 0 <= tid < 8 && ba(address, tid)
  }

  function WithAgreement(ba: (Mac, nat) -> bool): MasterInfo -> bool
  {
    (info: MasterInfo) => HasAgreement(ba, info.address)
  }

  /**
   * `m_ul_candidates` in the ns-3.41 variant: every registry entry for which
   * the TID scan finds an agreement, pushed once, in registry order.
   */
  method CollectWithAgreement(registry: seq<MasterInfo>, ba: (Mac, nat) -> bool)
    returns (ulCands: seq<MasterInfo>)
    ensures ulCands == Filter(registry, WithAgreement(ba))
  {
    ulCands := [];
    var i := 0;
    while i < |registry|
      invariant 0 <= i <= |registry|
      invariant ulCands == Filter(registry[..i], WithAgreement(ba))
    {
      var tid := 0;
      var found := false;
      while tid < 8 && !found
        invariant 0 <= tid <= 8
        decreases 8 - tid, !found
        invariant found ==> tid < 8 && ba(registry[i].address, tid)
        invariant !found ==> forall t :: 0 <= t < tid ==> !ba(registry[i].address, t)
      {
        if ba(registry[i].address, tid) {
          found := true;
        } else {
          tid := tid + 1;
        }
      }
      FilterAppend(registry[..i], registry[i], WithAgreement(ba));
      assert registry[..i + 1] == registry[..i] + [registry[i]];
      if found {
        ulCands := ulCands + [registry[i]];
      }
      i := i + 1;
    }
    assert registry[..i] == registry;
  }

  /**
   * A station lands in `m_ul_candidates` only with an agreement, in
   * registry order, and at most once for each registry entry.
   */
  lemma CollectedSpec(registry: seq<MasterInfo>, ba: (Mac, nat) -> bool)
    ensures var c := Filter(registry, WithAgreement(ba));
            Subsequence(c, registry) &&
            (forall x :: x in c <==> x in registry && HasAgreement(ba, x.address)) &&
            (UniqueAids(registry) ==> UniqueAids(c))
  {
    FilterSubsequence(registry, WithAgreement(ba));
    if UniqueAids(registry) {
      FilterUnique(registry, WithAgreement(ba));
    }
  }

  /** Filtering a list keeps its AIDs unique. */
  lemma {:induction false} FilterUnique(l: seq<MasterInfo>, p: MasterInfo -> bool)
    requires UniqueAids(l)
    ensures UniqueAids(Filter(l, p))
  {
    if l != [] {
      UniqueAidsTail(l);
      FilterUnique(l[1..], p);
      FilterSubsequence(l[1..], p);
      var t := Filter(l[1..], p);
      if p(l[0]) {
        forall y | y in t ensures y.aid != l[0].aid {
          var k :| 0 <= k < |t| && t[k] == y;
          assert t[k] in l[1..];
        }
        UniqueAidsCons(l[0], t);
        assert Filter(l, p) == [l[0]] + t;
      }
    }
  }

  // ---------------------------------------------------------------------
  // Buffer status of each candidate
  // ---------------------------------------------------------------------

  /** The reports (`GetMaxBufferStatus`) of a list of stations, in list order. */
  function StatusesOf(l: seq<MasterInfo>, status: Mac -> byte): (r: seq<byte>)
    ensures |r| == |l|
    ensures forall k :: 0 <= k < |l| ==> r[k] == status(l[k].address)
  {
    if l == [] then [] else [status(l[0].address)] + StatusesOf(l[1..], status)
  }

  /** Registry entries keyed by the buffer status their station reported. */
  function ByStatus(l: seq<MasterInfo>, status: Mac -> byte): (r: seq<Keyed<MasterInfo>>)
    ensures |r| == |l|
    ensures forall i :: 0 <= i < |l| ==> r[i] == Keyed(status(l[i].address) as int, l[i])
  {
    if l == [] then [] else [Keyed(status(l[0].address) as int, l[0])] + ByStatus(l[1..], status)
  }

  predicate KeyedByStatus(s: seq<Keyed<MasterInfo>>, status: Mac -> byte)
  {
    forall i :: 0 <= i < |s| ==> s[i].key == status(s[i].item.address) as int
  }

  lemma ByStatusOfItems(s: seq<Keyed<MasterInfo>>, status: Mac -> byte)
    requires KeyedByStatus(s, status)
    ensures ByStatus(Items(s), status) == s
  {
  }

  lemma ItemsOfByStatus(l: seq<MasterInfo>, status: Mac -> byte)
    ensures Items(ByStatus(l, status)) == l
  {
  }

  lemma ByStatusAppend(a: seq<MasterInfo>, b: seq<MasterInfo>, status: Mac -> byte)
    ensures ByStatus(a + b, status) == ByStatus(a, status) + ByStatus(b, status)
  {
  }

  // ---------------------------------------------------------------------
  // Admission into the multimap
  // ---------------------------------------------------------------------

  /**
   * The two admission rules: the old variant serves every station whose
   * report is not null (Old/basictf.cc:60-63); the ns-3.41 variant also
   * skips the unknown report 255 and stops admitting once nine stations are
   * in (ns3.41/rr-multi-user-scheduler.cc:669-672).
   */
  datatype Rule = Rule(skipUnknown: bool, cap: Option<nat>)

  const ServeNonEmpty: Rule := Rule(false, None)
  const ServeKnownUpToNine: Rule := Rule(true, Some(9))

  predicate Qualifies(rule: Rule, q: byte)
  {
    q > 0 && !(rule.skipUnknown && q == Unknown)
  }

  function QualifiesIn(rule: Rule, status: Mac -> byte): MasterInfo -> bool
  {
    (info: MasterInfo) => Qualifies(rule, status(info.address))
  }

  function Truncate<T>(s: seq<T>, cap: Option<nat>): seq<T>
  {
    match cap
    case None => s
    case Some(n) => if |s| <= n then s else s[..n]
  }

  /** The admitted stations, in the order they were emplaced. */
  function Admitted(rule: Rule, cands: seq<MasterInfo>, status: Mac -> byte): seq<MasterInfo>
  {
    Truncate(Filter(cands, QualifiesIn(rule, status)), rule.cap)
  }

  /** One more candidate: it is admitted if it qualifies and the cap is not reached yet. */
  lemma AdmitStep(rule: Rule, cands: seq<MasterInfo>, i: nat, status: Mac -> byte)
    requires i < |cands|
    ensures var prev := Admitted(rule, cands[..i], status);
            Admitted(rule, cands[..i + 1], status) ==
              if Qualifies(rule, status(cands[i].address)) && (rule.cap.None? || |prev| < rule.cap.value)
              then prev + [cands[i]] else prev
  {
    var p := QualifiesIn(rule, status);
    assert cands[..i + 1] == cands[..i] + [cands[i]];
    FilterAppend(cands[..i], cands[i], p);
    var f := Filter(cands[..i], p);
    if rule.cap.Some? && p(cands[i]) && |f| >= rule.cap.value {
      assert (f + [cands[i]])[..rule.cap.value] == f[..rule.cap.value];
    }
  }

  /** Reading one more report extends the fold by one step. */
  lemma StatusesStep(cands: seq<MasterInfo>, i: nat, status: Mac -> byte, ulPsduSize: uint32)
    requires i < |cands|
    ensures MaxBuffer(StatusesOf(cands[..i + 1], status), ulPsduSize) ==
            Max(MaxBuffer(StatusesOf(cands[..i], status), ulPsduSize), Octets(status(cands[i].address), ulPsduSize))
  {
    var r := StatusesOf(cands[..i + 1], status);
    assert r[..i] == StatusesOf(cands[..i], status);
  }

  /** Emplacing one more admitted station keeps the multimap the sorted keyed list. */
  lemma AdmitEmplace(admitted: seq<MasterInfo>, c: MasterInfo, status: Mac -> byte)
    ensures SortDesc(ByStatus(admitted + [c], status)) ==
            Emplace(SortDesc(ByStatus(admitted, status)), Keyed(status(c.address) as int, c))
  {
    var keyed := ByStatus(admitted + [c], status);
    assert keyed[..|keyed| - 1] == ByStatus(admitted, status);
  }

  /**
   * The fold and the admission loop of `TrySendingBasicTf`
   * (Old/basictf.cc:39-64, ns3.41/rr-multi-user-scheduler.cc:634-674):
   * `maxBufferSize` is the fold of the decoded reports, and the multimap
   * holds the admitted stations emplaced in candidate order.
   */
  method FoldAndAdmit(rule: Rule, cands: seq<MasterInfo>, status: Mac -> byte, ulPsduSize: uint32)
    returns (maxBufferSize: uint32, ulCandidates: seq<Keyed<MasterInfo>>)
    ensures maxBufferSize == MaxBuffer(StatusesOf(cands, status), ulPsduSize)
    ensures ulCandidates == SortDesc(ByStatus(Admitted(rule, cands, status), status))
  {
    maxBufferSize := 0;
    ulCandidates := [];
    ghost var admitted: seq<MasterInfo> := [];
    var i := 0;
    while i < |cands|
      invariant 0 <= i <= |cands|
      invariant maxBufferSize == MaxBuffer(StatusesOf(cands[..i], status), ulPsduSize)
      invariant admitted == Admitted(rule, cands[..i], status)
      invariant ulCandidates == SortDesc(ByStatus(admitted, status))
    {
      var candidate := cands[i];
      var queueSize := status(candidate.address);
      ghost var folded := Max(maxBufferSize, Octets(queueSize, ulPsduSize));
      FoldStep(maxBufferSize, queueSize, ulPsduSize);
      StatusesStep(cands, i, status, ulPsduSize);
      if queueSize == Unknown {
        maxBufferSize := Max(maxBufferSize, ulPsduSize);
      } else if queueSize == NotLimited {
        maxBufferSize := Unbounded;
      } else {
        maxBufferSize := Max(maxBufferSize, (queueSize as int * 256) as uint32);
      }
      assert maxBufferSize == folded;
      AdmitStep(rule, cands, i, status);
      assert |ulCandidates| == |admitted|;
      if queueSize > 0 && (rule.cap.None? || |ulCandidates| < rule.cap.value)
         && !(rule.skipUnknown && queueSize == Unknown)
      {
        assert Qualifies(rule, status(cands[i].address));
        AdmitEmplace(admitted, candidate, status);
        ulCandidates := Emplace(ulCandidates, Keyed(queueSize as int, candidate));
        admitted := admitted + [candidate];
      }
      i := i + 1;
    }
    assert cands[..i] == cands;
  }

  /**
   * The admitted stations are the first stations of the candidate list that
   * qualify, no more than the cap.
   */
  lemma AdmittedPrefix(rule: Rule, cands: seq<MasterInfo>, status: Mac -> byte)
    ensures var f := Filter(cands, QualifiesIn(rule, status));
            var a := Admitted(rule, cands, status);
            a == f[..|a|] &&
            (rule.cap.None? ==> a == f) &&
            (rule.cap.Some? ==> |a| == if |f| <= rule.cap.value then |f| else rule.cap.value)
  {
  }

  /** Every admitted station was a candidate and qualifies. */
  lemma AdmittedQualify(rule: Rule, cands: seq<MasterInfo>, status: Mac -> byte)
    ensures forall x :: x in Admitted(rule, cands, status) ==>
              x in cands && Qualifies(rule, status(x.address))
  {
    var f := Filter(cands, QualifiesIn(rule, status));
    FilterSubsequence(cands, QualifiesIn(rule, status));
    AdmittedPrefix(rule, cands, status);
    forall x | x in Admitted(rule, cands, status)
      ensures x in f
    {
      var a := Admitted(rule, cands, status);
      var j :| 0 <= j < |a| && a[j] == x;
      assert f[j] == x;
    }
  }

  /**
   * What the multimap holds: the admitted stations, in non-increasing
   * report order, stations with equal reports in candidate order.
   */
  lemma MultimapSpec(rule: Rule, cands: seq<MasterInfo>, status: Mac -> byte)
    ensures var keyed := ByStatus(Admitted(rule, cands, status), status);
            var m := SortDesc(keyed);
            NonIncreasing(m) &&
            multiset(Items(m)) == multiset(Admitted(rule, cands, status)) &&
            (forall k :: WithKey(m, k) == WithKey(keyed, k))
  {
    var a := Admitted(rule, cands, status);
    var keyed := ByStatus(a, status);
    SortDescSpec(keyed);
    SortDescItems(keyed);
    ItemsOfByStatus(a, status);
  }

  /** Each entry of the multimap is a qualifying candidate keyed by its own report. */
  lemma MultimapEntries(rule: Rule, cands: seq<MasterInfo>, status: Mac -> byte)
    ensures var m := SortDesc(ByStatus(Admitted(rule, cands, status), status));
            forall i :: 0 <= i < |m| ==>
              m[i].key == status(m[i].item.address) as int && Qualifies(rule, status(m[i].item.address)) &&
              m[i].item in cands
  {
    var a := Admitted(rule, cands, status);
    var keyed := ByStatus(a, status);
    var m := SortDesc(keyed);
    SortDescSpec(keyed);
    AdmittedQualify(rule, cands, status);
    forall i | 0 <= i < |m|
      ensures m[i].key == status(m[i].item.address) as int
      ensures Qualifies(rule, status(m[i].item.address)) && m[i].item in cands
    {
      assert m[i] in multiset(keyed);
      var j :| 0 <= j < |keyed| && keyed[j] == m[i];
      assert a[j] in a;
    }
  }

  /** Some candidate satisfies the predicate exactly when the filter keeps one. */
  lemma FilterNonEmpty(cands: seq<MasterInfo>, p: MasterInfo -> bool)
    ensures Filter(cands, p) != [] <==> exists i :: 0 <= i < |cands| && p(cands[i])
  {
    var f := Filter(cands, p);
    FilterSubsequence(cands, p);
    if exists i :: 0 <= i < |cands| && p(cands[i]) {
      var i :| 0 <= i < |cands| && p(cands[i]);
      assert cands[i] in f;
    }
    if f != [] {
      assert f[0] in f;
    }
  }

  /**
   * ns-3.41: at most nine stations are admitted (so the `size() > 9` test
   * that would switch to full-band RUs never fires), and uplink goes ahead
   * exactly when some candidate reported a known non-null buffer (1..254).
   * A station that reported 255 raises `maxBufferSize` to `UlPsduSize`
   * without being admitted.
   */
  lemma KnownUpToNineSpec(cands: seq<MasterInfo>, status: Mac -> byte, ulPsduSize: uint32)
    requires ulPsduSize > 0
    ensures |Admitted(ServeKnownUpToNine, cands, status)| <= 9
    ensures (MaxBuffer(StatusesOf(cands, status), ulPsduSize) > 0 &&
             Admitted(ServeKnownUpToNine, cands, status) != []) <==>
            exists i :: 0 <= i < |cands| && 0 < status(cands[i].address) < Unknown
    ensures (exists i :: 0 <= i < |cands| && status(cands[i].address) == Unknown) ==>
            MaxBuffer(StatusesOf(cands, status), ulPsduSize) >= ulPsduSize
  {
    var rule := ServeKnownUpToNine;
    var p := QualifiesIn(rule, status);
    var reports := StatusesOf(cands, status);
    AdmittedPrefix(rule, cands, status);
    FilterNonEmpty(cands, p);
    MaxBufferIsMax(reports, ulPsduSize);
    MaxBufferPositive(reports, ulPsduSize);
    assert forall i :: 0 <= i < |cands| ==> (p(cands[i]) <==> 0 < reports[i] < Unknown);
    if exists i :: 0 <= i < |cands| && status(cands[i].address) == Unknown {
      var i :| 0 <= i < |cands| && status(cands[i].address) == Unknown;
      assert Octets(reports[i], ulPsduSize) == ulPsduSize;
    }
  }

  /**
   * Old variant: with a non-null `UlPsduSize`, `maxBufferSize` is positive
   * exactly when some station is admitted, which is the assertion
   * `!ulCandidates.empty()` the code makes after testing the fold; every
   * station with a non-null report is admitted.
   */
  lemma ServeNonEmptySpec(cands: seq<MasterInfo>, status: Mac -> byte, ulPsduSize: uint32)
    requires ulPsduSize > 0
    ensures Admitted(ServeNonEmpty, cands, status) == Filter(cands, QualifiesIn(ServeNonEmpty, status))
    ensures MaxBuffer(StatusesOf(cands, status), ulPsduSize) > 0 <==> Admitted(ServeNonEmpty, cands, status) != []
  {
    var p := QualifiesIn(ServeNonEmpty, status);
    var reports := StatusesOf(cands, status);
    FilterNonEmpty(cands, p);
    MaxBufferPositive(reports, ulPsduSize);
    assert forall i :: 0 <= i < |cands| ==> (p(cands[i]) <==> reports[i] != 0);
  }
}
