/**
 * The earlier `TrySendingBasicTf` of this repository (Old/basictf.cc): every
 * station of the primary AC's list is an uplink candidate, whatever its
 * Block Ack agreements; every station with a non-null buffer report is
 * admitted to the multimap; the equal-sized RU count of the HE RU library is
 * used as it is, without clamping it to the number of candidates.
 */
module OldBasicTf {
  import opened Wrappers
  import opened HeRu
  import opened Stations
  import opened Ordering
  import opened BufferStatus
  import opened MuScheduler
  import opened UlAdmission
  import opened RuAssignment
  import opened EqualSplit
  import BasicTf
  import Central26

  /** The fold of the reports of every station of the list (lines 39-58). */
  function OldMaxBuffer(registry: seq<MasterInfo>, queue: Mac -> byte, ulPsduSize: uint32): uint32
  {
    MaxBuffer(StatusesOf(registry, queue), ulPsduSize)
  }

  /** The multimap `ulCandidates`: every station with a non-null report (lines 59-63). */
  function OldMultimap(registry: seq<MasterInfo>, queue: Mac -> byte): (r: seq<Keyed<MasterInfo>>)
    ensures |r| <= |registry|
  {
    SortDesc(ByStatus(Admitted(ServeNonEmpty, registry, queue), queue))
  }

  /**
   * The outcome of `TrySendingBasicTf` (lines 1-254) for the list of the
   * primary AC. `equalSized` is the HE RU library's answer for a number of
   * stations; the TXOP and PHY answers are in `phy`.
   */
  function OldOutcome<R>(registry: seq<MasterInfo>, queue: Mac -> byte, ulPsduSize: uint32,
                         equalSized: nat -> EqualSizedRus<ToneClass>, phy: BasicTf.Phy<R>): BasicTf.Outcome<R>
    requires Central26.IsSize(|registry|)
  {
    if ulPsduSize == 0 then BasicTf.Aborted("The UlPsduSize attribute must be set to a non-null value")
    else
      var maxBufferSize := OldMaxBuffer(registry, queue, ulPsduSize);
      var m := OldMultimap(registry, queue);
      if maxBufferSize == 0 then BasicTf.DlFallback
      else if m == [] then BasicTf.Aborted("ulCandidates is empty")
      else BasicTf.Solicitation(m, maxBufferSize, ulPsduSize, equalSized(|m|), false, phy)
  }

  /**
   * With a non-null `UlPsduSize` the fold is positive exactly when some
   * station reported a non-null buffer, and then the multimap is not empty:
   * the assertion of line 69 always holds.
   */
  lemma FoldMatchesMultimap(registry: seq<MasterInfo>, queue: Mac -> byte, ulPsduSize: uint32)
    requires ulPsduSize > 0
    ensures (OldMaxBuffer(registry, queue, ulPsduSize) > 0 <==>
             exists i :: 0 <= i < |registry| && queue(registry[i].address) > 0)
    ensures OldMaxBuffer(registry, queue, ulPsduSize) > 0 <==> OldMultimap(registry, queue) != []
  {
    var p := QualifiesIn(ServeNonEmpty, queue);
    ServeNonEmptySpec(registry, queue, ulPsduSize);
    FilterNonEmpty(registry, p);
    assert forall i :: 0 <= i < |registry| ==> (p(registry[i]) <==> queue(registry[i].address) > 0);
    assert |OldMultimap(registry, queue)| == |Admitted(ServeNonEmpty, registry, queue)|;
  }

  /**
   * The scheduler falls back to downlink exactly when every station of the
   * list reported an empty buffer; otherwise it goes on to the solicitation.
   */
  lemma OldFallbackIff<R>(registry: seq<MasterInfo>, queue: Mac -> byte, ulPsduSize: uint32,
                          equalSized: nat -> EqualSizedRus<ToneClass>, phy: BasicTf.Phy<R>)
    requires Central26.IsSize(|registry|) && ulPsduSize > 0
    ensures var r := OldOutcome(registry, queue, ulPsduSize, equalSized, phy);
            var m := OldMultimap(registry, queue);
            (r == BasicTf.DlFallback <==> forall i :: 0 <= i < |registry| ==> queue(registry[i].address) == 0) &&
            (r != BasicTf.DlFallback ==>
               m != [] &&
               r == BasicTf.Solicitation(m, OldMaxBuffer(registry, queue, ulPsduSize), ulPsduSize,
                                         equalSized(|m|), false, phy))
  {
    var m := OldMultimap(registry, queue);
    var maxBufferSize := OldMaxBuffer(registry, queue, ulPsduSize);
    FoldMatchesMultimap(registry, queue, ulPsduSize);
    if maxBufferSize > 0 {
      BasicTf.SolicitationNeverFallsBack(m, maxBufferSize, ulPsduSize, equalSized(|m|), false, phy);
    }
  }

  /**
   * A grant serves the head of the multimap: registered stations with a
   * non-null report, the largest reports first.
   */
  lemma OldGrantServes<R>(registry: seq<MasterInfo>, queue: Mac -> byte, ulPsduSize: uint32,
                          equalSized: nat -> EqualSizedRus<ToneClass>, phy: BasicTf.Phy<R>)
    requires Central26.IsSize(|registry|)
    ensures var r := OldOutcome(registry, queue, ulPsduSize, equalSized, phy);
            r.UlGrant? ==>
              (forall i :: 0 <= i < |r.served| ==> r.served[i] in registry && queue(r.served[i].address) > 0) &&
              (forall i, j :: 0 <= i < j < |r.served| ==> queue(r.served[i].address) >= queue(r.served[j].address))
  {
    var r := OldOutcome(registry, queue, ulPsduSize, equalSized, phy);
    if r.UlGrant? {
      var m := OldMultimap(registry, queue);
      var maxBufferSize := OldMaxBuffer(registry, queue, ulPsduSize);
      var lib := equalSized(|m|);
      assert r == BasicTf.Solicitation(m, maxBufferSize, ulPsduSize, lib, false, phy);
      BasicTf.SolicitationServesHead(m, maxBufferSize, ulPsduSize, lib, false, phy);
      OldMultimapEntries(registry, queue);
    }
  }

  /** The entries of the multimap, in their order. */
  lemma OldMultimapEntries(registry: seq<MasterInfo>, queue: Mac -> byte)
    ensures var m := OldMultimap(registry, queue);
            (forall i :: 0 <= i < |m| ==> m[i].item in registry && queue(m[i].item.address) > 0) &&
            (forall i, j :: 0 <= i < j < |m| ==> queue(m[i].item.address) >= queue(m[j].item.address))
  {
    MultimapEntries(ServeNonEmpty, registry, queue);
    MultimapSpec(ServeNonEmpty, registry, queue);
  }

  /**
   * Without the clamp of ns-3.41, a grant needs a library answer of no more
   * equal-sized RUs, central 26-tone RUs included, than there are
   * candidates: otherwise the assertion of lines 94 and 116 fires.
   */
  lemma OldGrantNeedsFit<R>(registry: seq<MasterInfo>, queue: Mac -> byte, ulPsduSize: uint32,
                            equalSized: nat -> EqualSizedRus<ToneClass>, phy: BasicTf.Phy<R>)
    requires Central26.IsSize(|registry|)
    ensures var r := OldOutcome(registry, queue, ulPsduSize, equalSized, phy);
            var m := OldMultimap(registry, queue);
            r.UlGrant? ==>
              BasicTf.Served(|m|, equalSized(|m|), false, phy.useCentral26) <= |m| &&
              equalSized(|m|).nRus <= |m|
  {
    var r := OldOutcome(registry, queue, ulPsduSize, equalSized, phy);
    if r.UlGrant? {
      var m := OldMultimap(registry, queue);
      var maxBufferSize := OldMaxBuffer(registry, queue, ulPsduSize);
      assert r == BasicTf.Solicitation(m, maxBufferSize, ulPsduSize, equalSized(|m|), false, phy);
      BasicTf.SolicitationServes(m, maxBufferSize, ulPsduSize, equalSized(|m|), false, phy);
    }
  }

  /** The scheduler state `TrySendingBasicTf` reads and writes. */
  class Scheduler {
    /** `m_staList`: one list per access category. */
    var staList: map<Ac, seq<MasterInfo>>
    /** `m_ul_candidates`. */
    var ulCands: seq<MasterInfo>
    var ulTriggerType: TriggerType

    ghost predicate Valid()
      reads this
    {
      forall ac :: ac in staList
    }

    constructor ()
      ensures Valid() && ulCands == [] && ulTriggerType == BasicTrigger
      ensures forall ac :: staList[ac] == []
    {
      staList := map[AcBe := [], AcBk := [], AcVi := [], AcVo := []];
      ulCands, ulTriggerType := [], BasicTrigger;
      new;
      forall ac ensures ac in staList { AcListed(ac); }
    }

    /**
     * `TrySendingBasicTf`: the abort on a null `UlPsduSize` comes before
     * `m_ul_candidates` is refilled with the whole list of the primary AC.
     */
    method TrySendingBasicTf<R>(primaryAc: Ac, queue: Mac -> byte, ulPsduSize: uint32,
                                equalSized: nat -> EqualSizedRus<ToneClass>, phy: BasicTf.Phy<R>)
      returns (res: BasicTf.Outcome<R>)
      requires Valid() && Central26.IsSize(|staList[primaryAc]|)
      modifies this`ulCands, this`ulTriggerType
      ensures res == OldOutcome(old(staList[primaryAc]), queue, ulPsduSize, equalSized, phy)
      ensures ulCands == if ulPsduSize == 0 then old(ulCands) else staList[primaryAc]
      ensures ulTriggerType == if res.UlGrant? then BasicTrigger else old(ulTriggerType)
    {
      var registry := staList[primaryAc];
      var collected;
      res, collected := SolicitAll(registry, queue, ulPsduSize, equalSized, phy);
      if ulPsduSize != 0 {
        ulCands := collected;
      }
      if res.UlGrant? {
        ulTriggerType := BasicTrigger;
      }
    }
  }

  /** Lines 15-34: every station of the list becomes a candidate, in list order. */
  method CollectAll(registry: seq<MasterInfo>) returns (ulCands: seq<MasterInfo>)
    ensures ulCands == registry
  {
    ulCands := [];
    var i := 0;
    while i < |registry|
      invariant 0 <= i <= |registry| && ulCands == registry[..i]
    {
      ulCands := ulCands + [registry[i]];
      i := i + 1;
    }
    assert registry[..i] == registry;
  }

  /** The body of `TrySendingBasicTf` on the list of the primary AC. */
  method SolicitAll<R>(registry: seq<MasterInfo>, queue: Mac -> byte, ulPsduSize: uint32,
                       equalSized: nat -> EqualSizedRus<ToneClass>, phy: BasicTf.Phy<R>)
    returns (res: BasicTf.Outcome<R>, ulCands: seq<MasterInfo>)
    requires Central26.IsSize(|registry|)
    ensures res == OldOutcome(registry, queue, ulPsduSize, equalSized, phy)
    ensures ulPsduSize != 0 ==> ulCands == registry
  {
    if ulPsduSize == 0 {
      return BasicTf.Aborted("The UlPsduSize attribute must be set to a non-null value"), [];
    }
    ulCands := CollectAll(registry);
    var maxBufferSize, ulCandidates := FoldAndAdmit(ServeNonEmpty, ulCands, queue, ulPsduSize);
    if maxBufferSize == 0 {
      return BasicTf.DlFallback, ulCands;
    }
    if ulCandidates == [] {
      return BasicTf.Aborted("ulCandidates is empty"), ulCands;
    }
    res := BasicTf.Solicit(ulCandidates, maxBufferSize, ulPsduSize, equalSized(|ulCandidates|), false, phy);
  }
}
