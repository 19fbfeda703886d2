/**
 * The round-robin multi-user scheduler of ns-3.41 as modified in this
 * repository (ns3.41/rr-multi-user-scheduler.cc): the TX-format gate with
 * its BSRP limiter, the per-AC station registry, the uplink solicitation of
 * `TrySendingBasicTf` and the RU assignment of `ComputeDlMuInfo`.
 */
module RrScheduler {
  import opened Wrappers
  import opened HeRu
  import opened Stations
  import opened Ordering
  import opened BufferStatus
  import opened MuScheduler
  import opened UlAdmission
  import opened RuAssignment
  import opened EqualSplit
  import BasicTf
  import Central26

  /**
   * Configuration: the `EnableUlOfdma`, `EnableBsrp` and
   * `UseCentral26TonesRus` attributes and the file-level `bsrp_limit`.
   */
  datatype Config = Config(enableUlOfdma: bool, enableBsrp: bool, bsrpLimit: bool, useCentral26: bool)

  /** The state the format gate reads and writes: the file-level `count`, the last format and `m_ulTriggerType`. */
  datatype Gate = Gate(count: int, lastTxFormat: TxFormat, ulTriggerType: TriggerType)

  datatype Selection = Selection(format: TxFormat, gate: Gate, tried: set<Attempt>)

  /** With the limiter on, one BSRP trigger frame every this many eligible calls. */
  const BsrpPeriod: int := 10

  /** Start-up: `count = 10`, no previous format, `m_ulTriggerType` BASIC_TRIGGER. */
  const InitialGate: Gate := Gate(BsrpPeriod, NoTx, BasicTrigger)

  /** `TrySendingBsrpTf` records a BSRP trigger only when it returns UL_MU_TX. */
  function AfterBsrpTf(g: Gate, f: TxFormat): Gate
  {
    if f == UlMuTx then g.(ulTriggerType := BsrpTrigger) else g
  }

  /** `TrySendingBasicTf` records a Basic trigger only when it returns UL_MU_TX. */
  function AfterBasicTf(g: Gate, f: TxFormat): Gate
  {
    if f == UlMuTx then g.(ulTriggerType := BasicTrigger) else g
  }

  /**
   * The caller of `SelectTxFormat` (`MultiUserScheduler::NotifyAccessGranted`)
   * records the returned format as the last one, unless it is NO_TX.
   */
  function Done(f: TxFormat, g: Gate, tried: set<Attempt>): Selection
  {
    Selection(f, if f == NoTx then g else g.(lastTxFormat := f), tried)
  }

  /** A call after a downlink transmission, with uplink OFDMA and BSRP on, may solicit buffer reports. */
  predicate BsrpEligible(cfg: Config, g: Gate)
  {
    cfg.enableUlOfdma && cfg.enableBsrp && g.lastTxFormat == DlMuTx
  }

  /** `SelectTxFormat` (ns3.41/rr-multi-user-scheduler.cc:184-241) as a function of its inputs. */
  function Step(cfg: Config, g: Gate, out: Outcomes): Selection
  {
    var g1 := if BsrpEligible(cfg, g) && cfg.bsrpLimit then g.(count := g.count - 1) else g;
    if BsrpEligible(cfg, g) && (!cfg.bsrpLimit || g1.count <= 0) then
      var g2 := if cfg.bsrpLimit then g1.(count := BsrpPeriod) else g1;
      Done(out.bsrpTf, AfterBsrpTf(g2, out.bsrpTf), {TriedBsrpTf})
    else if cfg.enableUlOfdma && (g1.lastTxFormat == DlMuTx || g1.ulTriggerType == BsrpTrigger) then
      if out.basicTf != DlMuTx then Done(out.basicTf, AfterBasicTf(g1, out.basicTf), {TriedBasicTf})
      else Done(out.dlMuPpdu, g1, {TriedBasicTf, TriedDlMuPpdu})
    else Done(out.dlMuPpdu, g1, {TriedDlMuPpdu})
  }

  predicate CountInRange(g: Gate)
  {
    1 <= g.count <= BsrpPeriod
  }

  /** The BSRP counter stays in 1..10; without the limiter it never moves. */
  lemma StepKeepsCount(cfg: Config, g: Gate, out: Outcomes)
    ensures CountInRange(g) ==> CountInRange(Step(cfg, g, out).gate)
    ensures !cfg.bsrpLimit ==> Step(cfg, g, out).gate.count == g.count
  {
  }

  /**
   * With the limiter on, every eligible call counts down, and the BSRP
   * trigger frame is tried exactly when the counter runs out, which resets
   * it to 10; a call that is not eligible leaves the counter alone and
   * tries no BSRP.
   */
  lemma BsrpLimiter(cfg: Config, g: Gate, out: Outcomes)
    requires cfg.bsrpLimit
    ensures var s := Step(cfg, g, out);
            (BsrpEligible(cfg, g) ==>
               (TriedBsrpTf in s.tried <==> g.count <= 1) &&
               (g.count <= 1 ==> s.format == out.bsrpTf && s.gate.count == BsrpPeriod) &&
               (g.count > 1 ==> s.gate.count == g.count - 1 && TriedBasicTf in s.tried)) &&
            (!BsrpEligible(cfg, g) ==> TriedBsrpTf !in s.tried && s.gate.count == g.count)
  {
  }

  /** Without the limiter, a BSRP trigger frame is tried after every downlink transmission, and its answer is returned. */
  lemma BsrpUnlimited(cfg: Config, g: Gate, out: Outcomes)
    requires !cfg.bsrpLimit
    ensures var s := Step(cfg, g, out);
            (TriedBsrpTf in s.tried <==> BsrpEligible(cfg, g)) &&
            (BsrpEligible(cfg, g) ==> s.format == out.bsrpTf && s.tried == {TriedBsrpTf})
  {
  }

  /**
   * The downlink PPDU is tried exactly when no uplink attempt was made or
   * the Basic trigger frame answered DL_MU_TX, and its answer is then the
   * format; the trigger type changes only with an uplink attempt that
   * returned UL_MU_TX, and then names that attempt.
   */
  lemma StepOutcome(cfg: Config, g: Gate, out: Outcomes)
    ensures var s := Step(cfg, g, out);
            (TriedDlMuPpdu in s.tried <==>
               TriedBsrpTf !in s.tried && !(TriedBasicTf in s.tried && out.basicTf != DlMuTx)) &&
            (TriedDlMuPpdu in s.tried ==> s.format == out.dlMuPpdu) &&
            s.gate.ulTriggerType ==
              (if s.format == UlMuTx && TriedBsrpTf in s.tried then BsrpTrigger
               else if s.format == UlMuTx && TriedBasicTf in s.tried && TriedDlMuPpdu !in s.tried then BasicTrigger
               else g.ulTriggerType) &&
            s.gate.lastTxFormat == (if s.format == NoTx then g.lastTxFormat else s.format)
  {
  }

  /** A BSRP trigger frame that went out is followed, on the next call, by an attempt at a Basic trigger frame. */
  lemma BasicFollowsBsrp(cfg: Config, g: Gate, out: Outcomes, next: Outcomes)
    ensures var s := Step(cfg, g, out);
            TriedBsrpTf in s.tried && s.format == UlMuTx ==>
              TriedBasicTf in Step(cfg, s.gate, next).tried && TriedBsrpTf !in Step(cfg, s.gate, next).tried
  {
  }

  /** The gate after a run of calls. */
  function Run(cfg: Config, g: Gate, outs: seq<Outcomes>): Gate
    decreases |outs|
  {
    if outs == [] then g else Run(cfg, Step(cfg, g, outs[0]).gate, outs[1..])
  }

  /** From start-up on, whatever the attempts answer, the counter stays in 1..10. */
  lemma {:induction false} RunKeepsCount(cfg: Config, g: Gate, outs: seq<Outcomes>)
    requires CountInRange(g)
    ensures CountInRange(Run(cfg, g, outs))
    decreases |outs|
  {
    if outs != [] {
      StepKeepsCount(cfg, g, outs[0]);
      RunKeepsCount(cfg, Step(cfg, g, outs[0]).gate, outs[1..]);
    }
  }

  // ---------------------------------------------------------------------
  // Station registry
  // ---------------------------------------------------------------------

  /** Association on one list: `push_back` with no credits, with no check for an entry already there. */
  function Append(l: seq<MasterInfo>, aid: Aid, address: Mac): (r: seq<MasterInfo>)
    ensures |r| == |l| + 1 && r[..|l|] == l && r[|l|] == MasterInfo(aid, address, 0)
  {
    l + [MasterInfo(aid, address, 0)]
  }

  predicate Matches(info: MasterInfo, aid: Aid, address: Mac)
  {
    info.aid == aid && info.address == address
  }

  function Keeps(aid: Aid, address: Mac): MasterInfo -> bool
  {
    (info: MasterInfo) => !Matches(info, aid, address)
  }

  /** Disassociation on one list: `remove_if` on the AID and the address together. */
  function RemoveEntry(l: seq<MasterInfo>, aid: Aid, address: Mac): seq<MasterInfo>
  {
    Filter(l, Keeps(aid, address))
  }

  /**
   * Disassociation removes every entry of the station and keeps every other
   * entry, in order, including entries with the same AID and another
   * address.
   */
  lemma RemoveEntrySpec(l: seq<MasterInfo>, aid: Aid, address: Mac)
    ensures var r := RemoveEntry(l, aid, address);
            Subsequence(r, l) &&
            (forall x :: x in r <==> x in l && !Matches(x, aid, address))
  {
    FilterSubsequence(l, Keeps(aid, address));
  }

  lemma {:induction false} RemoveEntryAbsent(l: seq<MasterInfo>, aid: Aid, address: Mac)
    requires forall i :: 0 <= i < |l| ==> !Matches(l[i], aid, address)
    ensures RemoveEntry(l, aid, address) == l
  {
    if l != [] {
      assert forall i :: 0 <= i < |l[1..]| ==> l[1..][i] == l[i + 1];
      RemoveEntryAbsent(l[1..], aid, address);
      assert l == [l[0]] + l[1..];
    }
  }

  /** Associating a station that is not listed and disassociating it restores the list. */
  lemma AssociateThenDeassociate(l: seq<MasterInfo>, aid: Aid, address: Mac)
    requires forall i :: 0 <= i < |l| ==> !Matches(l[i], aid, address)
    ensures RemoveEntry(Append(l, aid, address), aid, address) == l
  {
    FilterAppend(l, MasterInfo(aid, address, 0), Keeps(aid, address));
    RemoveEntryAbsent(l, aid, address);
  }

  /**
   * A station associated twice is listed twice, and one disassociation
   * removes both entries.
   */
  lemma AssociateTwice(l: seq<MasterInfo>, aid: Aid, address: Mac)
    ensures var l2 := Append(Append(l, aid, address), aid, address);
            |l2| == |l| + 2 && l2[|l|] == l2[|l| + 1] == MasterInfo(aid, address, 0) &&
            RemoveEntry(l2, aid, address) == RemoveEntry(l, aid, address)
  {
    var x := MasterInfo(aid, address, 0);
    FilterAppend(l, x, Keeps(aid, address));
    FilterAppend(l + [x], x, Keeps(aid, address));
  }

  // ---------------------------------------------------------------------
  // TrySendingBasicTf
  // ---------------------------------------------------------------------

  /**
   * The admission rule: with BSRP on, stations with a known non-null report,
   * at most nine; with BSRP off, every candidate, keyed by a random queue
   * size.
   */
  function AdmissionRule(enableBsrp: bool): Rule
  {
    if enableBsrp then ServeKnownUpToNine else ServeNonEmpty
  }

  /**
   * `TrySendingBasicTf` (ns3.41/rr-multi-user-scheduler.cc:574-973) on the
   * list of the primary AC. `queue` gives each station's queue size: the
   * largest Queue Size it reported with BSRP on, the `rand() % 20 + 1` draw
   * with BSRP off. `equalSized(n, fullBand)` is the answer of
   * `GetEqualSizedRusForStations` for `n` stations.
   */
  function BasicTfOutcome<R>(registry: seq<MasterInfo>, ba: (Mac, nat) -> bool, enableBsrp: bool,
                             queue: Mac -> byte, ulPsduSize: uint32,
                             equalSized: (nat, bool) -> EqualSizedRus<ToneClass>, phy: BasicTf.Phy<R>)
    : BasicTf.Outcome<R>
    requires Central26.IsSize(|registry|)
  {
    if ulPsduSize == 0 then BasicTf.Aborted("The UlPsduSize attribute must be set to a non-null value")
    else
      var maxBufferSize := MaxBufferOf(registry, ba, queue, ulPsduSize);
      var ulCandidates := Multimap(registry, ba, enableBsrp, queue);
      if maxBufferSize > 0 && ulCandidates != [] then
        BasicTf.Solicitation(ulCandidates, maxBufferSize, ulPsduSize,
                             equalSized(|ulCandidates|, |ulCandidates| > 9), true, phy)
      else BasicTf.DlFallback
  }

  /** `maxBufferSize`: the fold over the stations with a Block Ack agreement. */
  function MaxBufferOf(registry: seq<MasterInfo>, ba: (Mac, nat) -> bool, queue: Mac -> byte, ulPsduSize: uint32)
    : uint32
  {
    MaxBuffer(StatusesOf(Filter(registry, WithAgreement(ba)), queue), ulPsduSize)
  }

  /** The multimap `ulCandidates`; it holds no more entries than the registry. */
  function Multimap(registry: seq<MasterInfo>, ba: (Mac, nat) -> bool, enableBsrp: bool, queue: Mac -> byte)
    : (r: seq<Keyed<MasterInfo>>)
    ensures |r| <= |registry|
  {
    var rule := AdmissionRule(enableBsrp);
    SortDesc(ByStatus(Admitted(rule, Filter(registry, WithAgreement(ba)), queue), queue))
  }

  /**
   * With BSRP on, uplink is attempted exactly when some station with a Block
   * Ack agreement reported a known non-null buffer; the multimap then holds
   * at most nine stations, so the library is never asked for full-band RUs.
   */
  lemma ProceedsWithBsrp(registry: seq<MasterInfo>, ba: (Mac, nat) -> bool, queue: Mac -> byte, ulPsduSize: uint32)
    requires ulPsduSize > 0
    ensures |Multimap(registry, ba, true, queue)| <= 9
    ensures (MaxBufferOf(registry, ba, queue, ulPsduSize) > 0 && Multimap(registry, ba, true, queue) != []) <==>
            exists i :: 0 <= i < |registry| && HasAgreement(ba, registry[i].address) &&
                        0 < queue(registry[i].address) < Unknown
  {
    var cands := Filter(registry, WithAgreement(ba));
    KnownUpToNineSpec(cands, queue, ulPsduSize);
    AgreedReporter(registry, ba, queue);
  }

  /** A collected station reports a known non-null buffer iff a registered one with an agreement does. */
  lemma AgreedReporter(registry: seq<MasterInfo>, ba: (Mac, nat) -> bool, queue: Mac -> byte)
    ensures var cands := Filter(registry, WithAgreement(ba));
            (exists i :: 0 <= i < |cands| && 0 < queue(cands[i].address) < Unknown) <==>
            (exists i :: 0 <= i < |registry| && HasAgreement(ba, registry[i].address) &&
                         0 < queue(registry[i].address) < Unknown)
  {
    var cands := Filter(registry, WithAgreement(ba));
    CollectedSpec(registry, ba);
    if i :| 0 <= i < |cands| && 0 < queue(cands[i].address) < Unknown {
      assert cands[i] in cands;
      var k :| 0 <= k < |registry| && registry[k] == cands[i];
    }
    if i :| 0 <= i < |registry| && HasAgreement(ba, registry[i].address) && 0 < queue(registry[i].address) < Unknown {
      assert registry[i] in cands;
      var k :| 0 <= k < |cands| && cands[k] == registry[i];
    }
  }

  /**
   * Every multimap entry is a registered station with a Block Ack agreement
   * that qualifies under the admission rule, and the entries come by
   * non-increasing queue size.
   */
  lemma MultimapOfRegistry(registry: seq<MasterInfo>, ba: (Mac, nat) -> bool, enableBsrp: bool, queue: Mac -> byte)
    ensures var m := Multimap(registry, ba, enableBsrp, queue);
            (forall i :: 0 <= i < |m| ==>
               m[i].item in registry && HasAgreement(ba, m[i].item.address) &&
               Qualifies(AdmissionRule(enableBsrp), queue(m[i].item.address))) &&
            (forall i, j :: 0 <= i < j < |m| ==> queue(m[i].item.address) >= queue(m[j].item.address))
  {
    var rule := AdmissionRule(enableBsrp);
    var cands := Filter(registry, WithAgreement(ba));
    var m := Multimap(registry, ba, enableBsrp, queue);
    CollectedSpec(registry, ba);
    UlAdmission.MultimapEntries(rule, cands, queue);
    MultimapSpec(rule, cands, queue);
    forall i | 0 <= i < |m|
      ensures m[i].item in registry && HasAgreement(ba, m[i].item.address)
    {
      assert m[i].item in cands;
    }
  }

  /** `TrySendingBasicTf` falls back to downlink exactly when the fold is null or nobody was admitted. */
  lemma FallbackIff<R>(registry: seq<MasterInfo>, ba: (Mac, nat) -> bool, enableBsrp: bool, queue: Mac -> byte,
                       ulPsduSize: uint32, equalSized: (nat, bool) -> EqualSizedRus<ToneClass>, phy: BasicTf.Phy<R>)
    requires Central26.IsSize(|registry|)
    ensures BasicTfOutcome(registry, ba, enableBsrp, queue, ulPsduSize, equalSized, phy) == BasicTf.DlFallback <==>
            ulPsduSize > 0 &&
            !(MaxBufferOf(registry, ba, queue, ulPsduSize) > 0 && Multimap(registry, ba, enableBsrp, queue) != [])
  {
    var m := Multimap(registry, ba, enableBsrp, queue);
    var maxBufferSize := MaxBufferOf(registry, ba, queue, ulPsduSize);
    if ulPsduSize > 0 && maxBufferSize > 0 && m != [] {
      BasicTf.SolicitationNeverFallsBack(m, maxBufferSize, ulPsduSize, equalSized(|m|, |m| > 9), true, phy);
    }
  }

  /** A grant serves the first entries of the multimap. */
  lemma GrantServesMultimap<R>(registry: seq<MasterInfo>, ba: (Mac, nat) -> bool, enableBsrp: bool, queue: Mac -> byte,
                               ulPsduSize: uint32, equalSized: (nat, bool) -> EqualSizedRus<ToneClass>,
                               phy: BasicTf.Phy<R>)
    requires Central26.IsSize(|registry|)
    ensures var r := BasicTfOutcome(registry, ba, enableBsrp, queue, ulPsduSize, equalSized, phy);
            var m := Multimap(registry, ba, enableBsrp, queue);
            r.UlGrant? ==>
              |r.served| <= |m| && forall i :: 0 <= i < |r.served| ==> r.served[i] == m[i].item
  {
    var r := BasicTfOutcome(registry, ba, enableBsrp, queue, ulPsduSize, equalSized, phy);
    var m := Multimap(registry, ba, enableBsrp, queue);
    var maxBufferSize := MaxBufferOf(registry, ba, queue, ulPsduSize);
    if r.UlGrant? {
      assert ulPsduSize > 0 && maxBufferSize > 0 && m != [];
      var lib := equalSized(|m|, |m| > 9);
      assert r == BasicTf.Solicitation(m, maxBufferSize, ulPsduSize, lib, true, phy);
      BasicTf.SolicitationServesHead(m, maxBufferSize, ulPsduSize, lib, true, phy);
    }
  }

  /**
   * With BSRP on, uplink is attempted exactly when some station with a Block
   * Ack agreement reported a known non-null buffer, and a grant serves at
   * most nine registered stations holding a Block Ack agreement and a known
   * non-null report, the largest reports first.
   */
  lemma BasicTfWithBsrp<R>(registry: seq<MasterInfo>, ba: (Mac, nat) -> bool, queue: Mac -> byte,
                           ulPsduSize: uint32, equalSized: (nat, bool) -> EqualSizedRus<ToneClass>,
                           phy: BasicTf.Phy<R>)
    requires Central26.IsSize(|registry|) && ulPsduSize > 0
    ensures var r := BasicTfOutcome(registry, ba, true, queue, ulPsduSize, equalSized, phy);
            (r != BasicTf.DlFallback <==>
               exists i :: 0 <= i < |registry| && HasAgreement(ba, registry[i].address) &&
                           0 < queue(registry[i].address) < Unknown) &&
            (r.UlGrant? ==>
               |r.served| <= 9 &&
               (forall i :: 0 <= i < |r.served| ==>
                  r.served[i] in registry && HasAgreement(ba, r.served[i].address) &&
                  0 < queue(r.served[i].address) < Unknown) &&
               (forall i, j :: 0 <= i < j < |r.served| ==> queue(r.served[i].address) >= queue(r.served[j].address)))
  {
    ProceedsWithBsrp(registry, ba, queue, ulPsduSize);
    FallbackIff(registry, ba, true, queue, ulPsduSize, equalSized, phy);
    MultimapOfRegistry(registry, ba, true, queue);
    GrantServesMultimap(registry, ba, true, queue, ulPsduSize, equalSized, phy);
  }

  /**
   * With BSRP off and the random queue sizes in 1..20, every station with a
   * Block Ack agreement is admitted, and uplink is attempted exactly when
   * there is one.
   */
  lemma BasicTfWithoutBsrp<R>(registry: seq<MasterInfo>, ba: (Mac, nat) -> bool, queue: Mac -> byte,
                              ulPsduSize: uint32, equalSized: (nat, bool) -> EqualSizedRus<ToneClass>,
                              phy: BasicTf.Phy<R>)
    requires Central26.IsSize(|registry|) && ulPsduSize > 0
    requires forall m :: 1 <= queue(m) <= 20
    ensures var cands := Filter(registry, WithAgreement(ba));
            Admitted(ServeNonEmpty, cands, queue) == cands &&
            (BasicTfOutcome(registry, ba, false, queue, ulPsduSize, equalSized, phy) != BasicTf.DlFallback <==>
               cands != [])
  {
    ProceedsWithoutBsrp(registry, ba, queue, ulPsduSize);
    FallbackIff(registry, ba, false, queue, ulPsduSize, equalSized, phy);
  }

  lemma ProceedsWithoutBsrp(registry: seq<MasterInfo>, ba: (Mac, nat) -> bool, queue: Mac -> byte, ulPsduSize: uint32)
    requires ulPsduSize > 0
    requires forall m :: 1 <= queue(m) <= 20
    ensures var cands := Filter(registry, WithAgreement(ba));
            Admitted(ServeNonEmpty, cands, queue) == cands &&
            ((MaxBufferOf(registry, ba, queue, ulPsduSize) > 0 && Multimap(registry, ba, false, queue) != []) <==>
             cands != [])
  {
    var cands := Filter(registry, WithAgreement(ba));
    ServeNonEmptySpec(cands, queue, ulPsduSize);
    FilterAll(cands, QualifiesIn(ServeNonEmpty, queue));
  }

  lemma {:induction false} FilterAll(l: seq<MasterInfo>, p: MasterInfo -> bool)
    requires forall x :: p(x)
    ensures Filter(l, p) == l
  {
    if l != [] {
      FilterAll(l[1..], p);
      assert l == [l[0]] + l[1..];
    }
  }

  /**
   * The first half of `TrySendingBasicTf`: the stations with a Block Ack
   * agreement, the fold of their reports and the multimap of the admitted
   * ones.
   */
  method CollectAndAdmit(registry: seq<MasterInfo>, ba: (Mac, nat) -> bool, enableBsrp: bool,
                         queue: Mac -> byte, ulPsduSize: uint32)
    returns (ulCands: seq<MasterInfo>, maxBufferSize: uint32, ulCandidates: seq<Keyed<MasterInfo>>)
    ensures ulCands == Filter(registry, WithAgreement(ba))
    ensures maxBufferSize == MaxBufferOf(registry, ba, queue, ulPsduSize)
    ensures ulCandidates == Multimap(registry, ba, enableBsrp, queue)
  {
    ulCands := CollectWithAgreement(registry, ba);
    maxBufferSize, ulCandidates := FoldAndAdmit(AdmissionRule(enableBsrp), ulCands, queue, ulPsduSize);
  }

  /**
   * The body of `TrySendingBasicTf` on the list of the primary AC: the Block
   * Ack filter, the fold and the admission, then the solicitation.
   */
  method SolicitFromList<R>(registry: seq<MasterInfo>, ba: (Mac, nat) -> bool, enableBsrp: bool,
                            queue: Mac -> byte, ulPsduSize: uint32,
                            equalSized: (nat, bool) -> EqualSizedRus<ToneClass>, phy: BasicTf.Phy<R>)
    returns (res: BasicTf.Outcome<R>, ulCands: seq<MasterInfo>)
    requires Central26.IsSize(|registry|)
    ensures res == BasicTfOutcome(registry, ba, enableBsrp, queue, ulPsduSize, equalSized, phy)
    ensures ulPsduSize != 0 ==> ulCands == Filter(registry, WithAgreement(ba))
  {
    if ulPsduSize == 0 {
      return BasicTf.Aborted("The UlPsduSize attribute must be set to a non-null value"), [];
    }
    var maxBufferSize, ulCandidates;
    ulCands, maxBufferSize, ulCandidates := CollectAndAdmit(registry, ba, enableBsrp, queue, ulPsduSize);
    if maxBufferSize > 0 && ulCandidates != [] {
      res := BasicTf.Solicit(ulCandidates, maxBufferSize, ulPsduSize,
                             equalSized(|ulCandidates|, |ulCandidates| > 9), true, phy);
    } else {
      res := BasicTf.DlFallback;
    }
  }

  // ---------------------------------------------------------------------
  // ComputeDlMuInfo
  // ---------------------------------------------------------------------

  /** How many downlink candidates keep their place: the loop stops at the end of the list. */
  function DlServedCount(nCandidates: nat, lib: EqualSizedRus<ToneClass>, useCentral26: bool): nat
    requires Central26.IsSize(nCandidates)
  {
    Central26.Min(nCandidates, lib.nRus + Central26.CentralCount(useCentral26, nCandidates, lib.nRus, lib.nCentral))
  }

  /**
   * The users and RUs `ComputeDlMuInfo` (ns3.41/rr-multi-user-scheduler.cc:1232-1312)
   * puts in the TXVECTOR for the candidate list, `lib` being the library's
   * answer for the number of PSDUs; an empty list gives an empty DlMuInfo.
   */
  function DlRuAllocation<R>(cands: seq<MasterInfo>, lib: EqualSizedRus<ToneClass>, useCentral26: bool,
                             rusOf: ToneClass -> seq<R>, centralOf: ToneClass -> seq<R>)
    : Result<seq<UserInfo<R>>>
    requires Central26.IsSize(|cands|)
  {
    if cands == [] then Success([])
    else
      var nCentral := Central26.CentralCount(useCentral26, |cands|, lib.nRus, lib.nCentral);
      RuIndices(TypePass(cands, lib.nRus, nCentral, lib.ruType, false).value.users, rusOf, centralOf)
  }

  /**
   * `ComputeDlMuInfo` serves the first `nRusAssigned + nCentral26TonesRus`
   * candidates, or all of them when the library offers more RUs; without
   * central RUs no more than `nRusAssigned`. The users of the TXVECTOR are
   * by ascending STA-ID and, with no AID listed twice, exactly the served
   * candidates.
   */
  lemma DlRuAllocationSpec<R>(cands: seq<MasterInfo>, lib: EqualSizedRus<ToneClass>, useCentral26: bool,
                              rusOf: ToneClass -> seq<R>, centralOf: ToneClass -> seq<R>)
    requires Central26.IsSize(|cands|)
    ensures var n := DlServedCount(|cands|, lib, useCentral26);
            var nCentral := Central26.CentralCount(useCentral26, |cands|, lib.nRus, lib.nCentral);
            (lib.nRus <= |cands| ==> n == lib.nRus + nCentral) &&
            (|cands| <= lib.nRus ==> n == |cands|) &&
            (!useCentral26 ==> n == Central26.Min(|cands|, lib.nRus)) &&
            (cands == [] ==> DlRuAllocation(cands, lib, useCentral26, rusOf, centralOf) == Success([])) &&
            (var r := DlRuAllocation(cands, lib, useCentral26, rusOf, centralOf);
             r.Success? && UniqueAids(cands) ==>
               AidsAscending(r.value) &&
               forall a :: a in AidsOf(r.value) <==> exists j :: 0 <= j < n && cands[j].aid == a)
  {
    var nCentral := Central26.CentralCount(useCentral26, |cands|, lib.nRus, lib.nCentral);
    Central26.CentralCountFits(useCentral26, |cands|, lib.nRus, lib.nCentral);
    var r := DlRuAllocation(cands, lib, useCentral26, rusOf, centralOf);
    if r.Success? && UniqueAids(cands) && cands != [] {
      TypePassSpec(cands, lib.nRus, nCentral, lib.ruType, false);
      BasicTf.RuIndicesAids(TypePass(cands, lib.nRus, nCentral, lib.ruType, false).value.users, rusOf, centralOf);
    }
  }

  /**
   * The body of `ComputeDlMuInfo` on the candidate list: the RU types, the
   * candidates that keep their place, then the RU indices.
   */
  method DlAllocate<R>(cands: seq<MasterInfo>, lib: EqualSizedRus<ToneClass>, useCentral26: bool,
                       rusOf: ToneClass -> seq<R>, centralOf: ToneClass -> seq<R>)
    returns (info: Result<seq<UserInfo<R>>>, served: seq<MasterInfo>)
    requires Central26.IsSize(|cands|)
    ensures info == DlRuAllocation(cands, lib, useCentral26, rusOf, centralOf)
    ensures served == cands[..DlServedCount(|cands|, lib, useCentral26)]
  {
    if cands == [] {
      return Success([]), cands;
    }
    var nCentral := Central26.CentralCount(useCentral26, |cands|, lib.nRus, lib.nCentral);
    var types := AssignTypes(cands, lib.nRus, nCentral, lib.ruType, false);
    served := types.value.served;
    info := AssignRuIndices(types.value.users, rusOf, centralOf);
  }

  // ---------------------------------------------------------------------
  // The scheduler object
  // ---------------------------------------------------------------------

  class Scheduler {
    const cfg: Config
    /** The file-level BSRP counter `count`. */
    var count: int
    var lastTxFormat: TxFormat
    var ulTriggerType: TriggerType
    /** `m_staList`: one list per access category. */
    var staList: map<Ac, seq<MasterInfo>>
    /** `m_ul_candidates`: the stations `TrySendingBasicTf` last considered. */
    var ulCands: seq<MasterInfo>
    /** `m_candidates`: the downlink candidates, filled by `TrySendingDlMuPpdu`. */
    var candidates: seq<MasterInfo>

    function GateOf(): Gate
      reads this`count, this`lastTxFormat, this`ulTriggerType
    {
      Gate(count, lastTxFormat, ulTriggerType)
    }

    /** Every AC has a list. */
    ghost predicate Valid()
      reads this
    {
      forall ac :: ac in staList
    }

    /** Start-up, including `DoInitialize`'s empty list for each AC. */
    constructor (cfg: Config)
      ensures Valid() && this.cfg == cfg && GateOf() == InitialGate
      ensures (forall ac :: staList[ac] == []) && ulCands == [] && candidates == []
    {
      this.cfg := cfg;
      count, lastTxFormat, ulTriggerType := BsrpPeriod, NoTx, BasicTrigger;
      staList := map[AcBe := [], AcBk := [], AcVi := [], AcVo := []];
      ulCands, candidates := [], [];
      new;
      forall ac ensures ac in staList { AcListed(ac); }
    }

    /** `SelectTxFormat`, with the `TrySending*` answers as inputs. */
    method SelectTxFormat(out: Outcomes) returns (format: TxFormat)
      modifies this
      ensures var s := Step(cfg, old(GateOf()), out); format == s.format && GateOf() == s.gate
      ensures staList == old(staList) && ulCands == old(ulCands) && candidates == old(candidates)
    {
      if cfg.enableUlOfdma && cfg.enableBsrp && lastTxFormat == DlMuTx {
        if cfg.bsrpLimit {
          count := count - 1;
          if count <= 0 {
            count := BsrpPeriod;
            format := out.bsrpTf;
            if format == UlMuTx {
              ulTriggerType := BsrpTrigger;
            }
            if format != NoTx { lastTxFormat := format; }
            return;
          }
        } else {
          format := out.bsrpTf;
          if format == UlMuTx {
            ulTriggerType := BsrpTrigger;
          }
          if format != NoTx { lastTxFormat := format; }
          return;
        }
      }
      if cfg.enableUlOfdma && (lastTxFormat == DlMuTx || ulTriggerType == BsrpTrigger) {
        var txFormat := out.basicTf;
        if txFormat == UlMuTx {
          ulTriggerType := BasicTrigger;
        }
        if txFormat != DlMuTx {
          format := txFormat;
          if format != NoTx { lastTxFormat := format; }
          return;
        }
      }
      format := out.dlMuPpdu;
      if format != NoTx { lastTxFormat := format; }
    }

    /**
     * `NotifyStationAssociated` (ns3.41/rr-multi-user-scheduler.cc:978-989):
     * an HE station is appended to every list; other stations are ignored.
     */
    method NotifyStationAssociated(aid: Aid, address: Mac, heSupported: bool)
      requires Valid()
      modifies this
      ensures Valid() && GateOf() == old(GateOf()) && ulCands == old(ulCands) && candidates == old(candidates)
      ensures !heSupported ==> staList == old(staList)
      ensures heSupported ==> forall ac :: staList[ac] == Append(old(staList)[ac], aid, address)
    {
      if !heSupported {
        return;
      }
      var before, lists := staList, staList;
      var k := 0;
      while k < |AllAcs|
        invariant 0 <= k <= |AllAcs|
        invariant forall ac :: ac in lists
        invariant forall ac :: ac in AllAcs[..k] ==> lists[ac] == Append(before[ac], aid, address)
        invariant forall ac :: ac !in AllAcs[..k] ==> lists[ac] == before[ac]
      {
        var ac := AllAcs[k];
        lists := lists[ac := Append(lists[ac], aid, address)];
        assert AllAcs[..k + 1] == AllAcs[..k] + [ac];
        k := k + 1;
      }
      assert AllAcs[..k] == AllAcs;
      forall ac ensures ac in AllAcs { AcListed(ac); }
      staList := lists;
    }

    /**
     * `NotifyStationDeassociated` (ns3.41/rr-multi-user-scheduler.cc:991-1003):
     * for an HE station, every entry with its AID and address leaves every
     * list.
     */
    method NotifyStationDeassociated(aid: Aid, address: Mac, heSupported: bool)
      requires Valid()
      modifies this
      ensures Valid() && GateOf() == old(GateOf()) && ulCands == old(ulCands) && candidates == old(candidates)
      ensures !heSupported ==> staList == old(staList)
      ensures heSupported ==> forall ac :: staList[ac] == RemoveEntry(old(staList)[ac], aid, address)
    {
      if !heSupported {
        return;
      }
      var before, lists := staList, staList;
      var k := 0;
      while k < |AllAcs|
        invariant 0 <= k <= |AllAcs|
        invariant forall ac :: ac in lists
        invariant forall ac :: ac in AllAcs[..k] ==> lists[ac] == RemoveEntry(before[ac], aid, address)
        invariant forall ac :: ac !in AllAcs[..k] ==> lists[ac] == before[ac]
      {
        var ac := AllAcs[k];
        lists := lists[ac := RemoveEntry(lists[ac], aid, address)];
        assert AllAcs[..k + 1] == AllAcs[..k] + [ac];
        k := k + 1;
      }
      assert AllAcs[..k] == AllAcs;
      forall ac ensures ac in AllAcs { AcListed(ac); }
      staList := lists;
    }

    /**
     * `TrySendingBasicTf` on the list of the primary AC: it refills
     * `m_ul_candidates` with the stations holding a Block Ack agreement and
     * records a Basic trigger when it grants.
     */
    method TrySendingBasicTf<R>(primaryAc: Ac, ba: (Mac, nat) -> bool, queue: Mac -> byte, ulPsduSize: uint32,
                                equalSized: (nat, bool) -> EqualSizedRus<ToneClass>, phy: BasicTf.Phy<R>)
      returns (res: BasicTf.Outcome<R>)
      requires Valid() && Central26.IsSize(|staList[primaryAc]|)
      requires phy.useCentral26 == cfg.useCentral26
      modifies this
      ensures res == BasicTfOutcome(old(staList[primaryAc]), ba, cfg.enableBsrp, queue, ulPsduSize, equalSized, phy)
      ensures ulCands == if ulPsduSize == 0 then old(ulCands) else Filter(old(staList[primaryAc]), WithAgreement(ba))
      ensures ulTriggerType == if res.UlGrant? then BasicTrigger else old(ulTriggerType)
      ensures staList == old(staList) && count == old(count) && lastTxFormat == old(lastTxFormat)
      ensures candidates == old(candidates) && Valid()
    {
      var registry := staList[primaryAc];
      var collected;
      res, collected := SolicitFromList(registry, ba, cfg.enableBsrp, queue, ulPsduSize, equalSized, phy);
      var granted := res.UlGrant?;
      ulCands := if ulPsduSize == 0 then ulCands else collected;
      ulTriggerType := if granted then BasicTrigger else ulTriggerType;
    }

    /**
     * The RU assignment of `ComputeDlMuInfo`: the TXVECTOR's users, or the
     * assertion `AssignRuIndices` fails, and the candidate list cut down to
     * the served candidates.
     */
    method ComputeDlMuInfo<R>(lib: EqualSizedRus<ToneClass>, rusOf: ToneClass -> seq<R>,
                              centralOf: ToneClass -> seq<R>)
      returns (info: Result<seq<UserInfo<R>>>)
      requires Central26.IsSize(|candidates|)
      modifies this`candidates
      ensures info == DlRuAllocation(old(candidates), lib, cfg.useCentral26, rusOf, centralOf)
      ensures candidates == old(candidates)[..DlServedCount(|old(candidates)|, lib, cfg.useCentral26)]
      ensures GateOf() == old(GateOf()) && staList == old(staList) && ulCands == old(ulCands)
    {
      var served;
      info, served := DlAllocate(candidates, lib, cfg.useCentral26, rusOf, centralOf);
      candidates := served;
    }
  }
}
