/**
 * The DL/UL-ratio round-robin scheduler (dlulratio_scheduler.cpp): which
 * kind of transmission the access point attempts next, the duty-cycle
 * counters that keep about ten downlink transmissions per uplink one, and
 * the per-AC station registry.
 */
module DlUlRatio {
  import opened Wrappers
  import opened Stations
  import opened Ordering
  import opened BufferStatus
  import opened MuScheduler
  import opened UlAdmission
  import opened UlSolicitation
  import opened RuAssignment
  import opened HeRu
  import Central26

  /** The frame at the head of the EDCA queue, if any, and whether its receiver supports HE. */
  datatype HeadMpdu = NoMpdu | Mpdu(toHeStation: bool)

  /** Configuration: two attributes of the scheduler and two file-level switches. */
  datatype Config = Config(enableUlOfdma: bool, enableBsrp: bool, bsrpLimit: bool, testDlRatio: bool)

  /** The state the format gate reads and writes. */
  datatype Gate = Gate(dlcount: int, ulcount: int, bsrpfraction: int,
                       lastTxFormat: TxFormat, trigger: TriggerType)

  datatype Selection = Selection(format: TxFormat, gate: Gate, tried: set<Attempt>)

  const DlFraction: int := 10
  const UlFraction: int := 1
  const BsrpCounter: int := 10

  /** Counters at start-up; ns-3 starts with no previous format and a Basic trigger. */
  const InitialGate: Gate := Gate(DlFraction, UlFraction, BsrpCounter, NoTx, BasicTrigger)

  /** Both counters spent: start a new cycle of ten downlink and one uplink transmission. */
  function Refill(g: Gate): Gate
  {
    if g.dlcount <= 0 && g.ulcount <= 0 then g.(dlcount := DlFraction, ulcount := UlFraction) else g
  }

  /** `TrySendingBsrpTf` installs a BSRP trigger whenever it gets as far as building one. */
  function AfterBsrpTf(g: Gate, f: TxFormat): Gate
  {
    if f == NoTx || f == UlMuTx then g.(trigger := BsrpTrigger) else g
  }

  /** `TrySendingBasicTf` installs a Basic trigger likewise and spends the uplink credit on success. */
  function AfterBasicTf(g: Gate, f: TxFormat): Gate
  {
    var g1 := if f == NoTx || f == UlMuTx then g.(trigger := BasicTrigger) else g;
    if f == UlMuTx then g1.(ulcount := g1.ulcount - 1) else g1
  }

  /** `TrySendingDlMuPpdu` spends one downlink credit when it returns DL_MU_TX. */
  function AfterDlMuPpdu(g: Gate, f: TxFormat): Gate
  {
    if f == DlMuTx then g.(dlcount := g.dlcount - 1) else g
  }

  /**
   * The caller of `SelectTxFormat` (`MultiUserScheduler::NotifyAccessGranted`)
   * records the returned format as the last one, unless it is NO_TX.
   */
  function Done(f: TxFormat, g: Gate, tried: set<Attempt>): Selection
  {
    Selection(f, if f == NoTx then g else g.(lastTxFormat := f), tried)
  }

  function FallToDl(g: Gate, out: Outcomes, tried: set<Attempt>): Selection
  {
    Done(out.dlMuPpdu, AfterDlMuPpdu(g, out.dlMuPpdu), tried + {TriedDlMuPpdu})
  }

  /** `SelectTxFormat` (dlulratio_scheduler.cpp:849-930) as a function of its inputs. */
  function Step(cfg: Config, g: Gate, mpdu: HeadMpdu, out: Outcomes): Selection
  {
    if mpdu.Mpdu? && !mpdu.toHeStation then Done(SuTx, g, {})
    else
      var g1 := Refill(g);
      var credit := !cfg.testDlRatio || g1.ulcount > 0;
      if cfg.enableUlOfdma && cfg.enableBsrp && (g1.lastTxFormat == DlMuTx || mpdu.NoMpdu?)
         && g1.trigger != BsrpTrigger && credit
      then BsrpBranch(cfg, g1, out)
      else if cfg.enableUlOfdma && (g1.lastTxFormat == DlMuTx || g1.trigger == BsrpTrigger || mpdu.NoMpdu?)
              && credit
      then BasicBranch(g1, out)
      else FallToDl(g1, out, {})
  }

  /** The BSRP branch of `SelectTxFormat`, from the refilled gate. */
  function BsrpBranch(cfg: Config, g1: Gate, out: Outcomes): Selection
  {
    var g2 := AfterBsrpTf(g1, out.bsrpTf);
    if out.bsrpTf == DlMuTx then FallToDl(g2, out, {TriedBsrpTf})
    else if !cfg.bsrpLimit then Done(out.bsrpTf, g2, {TriedBsrpTf})
    else if g2.bsrpfraction - 1 <= 0 then Done(out.bsrpTf, g2.(bsrpfraction := BsrpCounter), {TriedBsrpTf})
    else FallToDl(g2.(bsrpfraction := g2.bsrpfraction - 1), out, {TriedBsrpTf})
  }

  /** The Basic Trigger Frame branch of `SelectTxFormat`, from the refilled gate. */
  function BasicBranch(g1: Gate, out: Outcomes): Selection
  {
    var g2 := AfterBasicTf(g1, out.basicTf);
    if out.basicTf != DlMuTx then Done(out.basicTf, g2, {TriedBasicTf})
    else FallToDl(g2, out, {TriedBasicTf})
  }

  /** What the counters may hold: at most one uplink credit, at most ten downlink ones. */
  predicate CountersInRange(g: Gate)
  {
    0 <= g.ulcount <= UlFraction && g.dlcount <= DlFraction && 0 < g.bsrpfraction <= BsrpCounter
  }

  /**
   * With the duty cycle on, a step keeps the counters in range: the uplink
   * credit is only spent when it is there, so it never goes below 0.
   */
  lemma {:induction false} StepKeepsCounters(cfg: Config, g: Gate, mpdu: HeadMpdu, out: Outcomes)
    requires cfg.testDlRatio && CountersInRange(g)
    ensures CountersInRange(Step(cfg, g, mpdu, out).gate)
  {
    var s := Step(cfg, g, mpdu, out);
    var g1 := Refill(g);
    assert CountersInRange(g1);
    if TriedBasicTf in s.tried {
      UplinkNeedsCredit(cfg, g, mpdu, out);
    }
  }

  /**
   * Both uplink branches are entered only with a credit left, after a
   * possible refill; a step without a refill has no uplink attempt when the
   * credit is spent.
   */
  lemma UplinkNeedsCredit(cfg: Config, g: Gate, mpdu: HeadMpdu, out: Outcomes)
    requires cfg.testDlRatio
    ensures var s := Step(cfg, g, mpdu, out);
            (TriedBsrpTf in s.tried || TriedBasicTf in s.tried) ==>
              Refill(g).ulcount > 0 && cfg.enableUlOfdma
    ensures var s := Step(cfg, g, mpdu, out);
            TriedBsrpTf in s.tried ==> cfg.enableBsrp && Refill(g).trigger != BsrpTrigger
  {
  }

  /** The counters are refilled only when both are spent. */
  lemma RefillOnlyWhenSpent(cfg: Config, g: Gate, mpdu: HeadMpdu, out: Outcomes)
    ensures var s := Step(cfg, g, mpdu, out);
            (s.gate.dlcount > g.dlcount || s.gate.ulcount > g.ulcount) ==>
              g.dlcount <= 0 && g.ulcount <= 0 && s.gate.dlcount >= DlFraction - 1 &&
              s.gate.ulcount >= UlFraction - 1
  {
  }

  /**
   * The downlink credit drops by one exactly when the step ends in a
   * DL_MU_TX; the uplink credit drops by one exactly when the Basic trigger
   * frame was sent.
   */
  lemma CreditsSpent(cfg: Config, g: Gate, mpdu: HeadMpdu, out: Outcomes)
    requires !(mpdu.Mpdu? && !mpdu.toHeStation)
    ensures var s := Step(cfg, g, mpdu, out);
            s.gate.dlcount == Refill(g).dlcount - (if s.format == DlMuTx then 1 else 0) &&
            s.gate.ulcount ==
              Refill(g).ulcount - (if TriedBasicTf in s.tried && out.basicTf == UlMuTx then 1 else 0) &&
            (s.format == DlMuTx <==> TriedDlMuPpdu in s.tried && out.dlMuPpdu == DlMuTx) &&
            s.gate.lastTxFormat == (if s.format == NoTx then g.lastTxFormat else s.format)
  {
  }

  /**
   * With the BSRP limiter on, an attempted BSRP trigger frame is let through
   * only when the counter runs out, which refills it; otherwise the
   * scheduler goes on to a downlink PPDU.
   */
  lemma BsrpLimiter(cfg: Config, g: Gate, mpdu: HeadMpdu, out: Outcomes)
    requires cfg.bsrpLimit && 0 < g.bsrpfraction
    ensures var s := Step(cfg, g, mpdu, out);
            TriedBsrpTf in s.tried && out.bsrpTf != DlMuTx ==>
              (g.bsrpfraction <= 1 ==>
                 s.format == out.bsrpTf && s.gate.bsrpfraction == BsrpCounter && TriedDlMuPpdu !in s.tried) &&
              (g.bsrpfraction > 1 ==> s.gate.bsrpfraction == g.bsrpfraction - 1 && TriedDlMuPpdu in s.tried)
  {
  }

  /** The gate after a run of calls. */
  function Run(cfg: Config, g: Gate, inputs: seq<(HeadMpdu, Outcomes)>): Gate
    decreases |inputs|
  {
    if inputs == [] then g else Run(cfg, Step(cfg, g, inputs[0].0, inputs[0].1).gate, inputs[1..])
  }

  /** From start-up on, whatever the outcomes, the counters stay in range. */
  lemma {:induction false} RunKeepsCounters(cfg: Config, g: Gate, inputs: seq<(HeadMpdu, Outcomes)>)
    requires cfg.testDlRatio && CountersInRange(g)
    ensures CountersInRange(Run(cfg, g, inputs))
    decreases |inputs|
  {
    if inputs != [] {
      StepKeepsCounters(cfg, g, inputs[0].0, inputs[0].1);
      RunKeepsCounters(cfg, Step(cfg, g, inputs[0].0, inputs[0].1).gate, inputs[1..]);
    }
  }

  // ---------------------------------------------------------------------
  // Station registry
  // ---------------------------------------------------------------------

  predicate HasAid(l: seq<MasterInfo>, aid: Aid)
  {
    exists i :: 0 <= i < |l| && l[i].aid == aid
  }

  /** Association on one list: append the station with no credits unless its AID is listed. */
  function AddOnce(l: seq<MasterInfo>, aid: Aid, address: Mac): seq<MasterInfo>
  {
    if HasAid(l, aid) then l else l + [MasterInfo(aid, address, 0)]
  }

  /** Disassociation on one list: `remove_if` on the AID. */
  function RemoveAid(l: seq<MasterInfo>, aid: Aid): seq<MasterInfo>
  {
    if l == [] then []
    else (if l[0].aid == aid then [] else [l[0]]) + RemoveAid(l[1..], aid)
  }

  /** Association keeps AIDs unique and leaves exactly one entry for the station. */
  lemma AddOnceSpec(l: seq<MasterInfo>, aid: Aid, address: Mac)
    requires UniqueAids(l)
    ensures var r := AddOnce(l, aid, address);
            UniqueAids(r) && HasAid(r, aid) && r[..|l|] == l &&
            (forall i, j :: 0 <= i < j < |r| && r[i].aid == aid ==> r[j].aid != aid) &&
            (!HasAid(l, aid) ==> r[|r| - 1] == MasterInfo(aid, address, 0))
  {
    var r := AddOnce(l, aid, address);
    if !HasAid(l, aid) {
      assert r[|l|].aid == aid;
    }
  }

  /** Association keeps a list free of duplicate AIDs. */
  lemma AddOnceUnique(l: seq<MasterInfo>, aid: Aid, address: Mac)
    requires UniqueAids(l)
    ensures UniqueAids(AddOnce(l, aid, address))
  {
    AddOnceSpec(l, aid, address);
  }

  /**
   * Disassociation removes every entry with the AID, keeps every other entry
   * and keeps their order.
   */
  lemma {:induction false} RemoveAidSpec(l: seq<MasterInfo>, aid: Aid)
    ensures var r := RemoveAid(l, aid);
            !HasAid(r, aid) &&
            (forall x :: x in r <==> x in l && x.aid != aid) &&
            Subsequence(r, l)
  {
    if l != [] {
      RemoveAidSpec(l[1..], aid);
      var t := RemoveAid(l[1..], aid);
      assert l == [l[0]] + l[1..];
      if l[0].aid == aid {
        assert RemoveAid(l, aid) == t;
        if t != [] {
          assert Subsequence(t, l[1..]);
        }
      } else {
        var r := [l[0]] + t;
        assert RemoveAid(l, aid) == r;
        assert r[1..] == t;
      }
    }
  }

  /** Disassociation keeps AIDs unique. */
  lemma {:induction false} RemoveAidUnique(l: seq<MasterInfo>, aid: Aid)
    requires UniqueAids(l)
    ensures UniqueAids(RemoveAid(l, aid))
  {
    if l != [] {
      UniqueAidsTail(l);
      RemoveAidUnique(l[1..], aid);
      var t := RemoveAid(l[1..], aid);
      if l[0].aid != aid {
        RemoveAidSpec(l[1..], aid);
        UniqueAidsCons(l[0], t);
        assert RemoveAid(l, aid) == [l[0]] + t;
      } else {
        assert RemoveAid(l, aid) == t;
      }
    }
  }

  /** Associating a new station and then disassociating it restores the list. */
  lemma {:induction false} AssociateThenDeassociate(l: seq<MasterInfo>, aid: Aid, address: Mac)
    requires !HasAid(l, aid)
    ensures RemoveAid(AddOnce(l, aid, address), aid) == l
  {
    RemoveAidAbsent(l, aid);
    RemoveAidAppend(l, MasterInfo(aid, address, 0), aid);
  }

  lemma {:induction false} RemoveAidAbsent(l: seq<MasterInfo>, aid: Aid)
    requires !HasAid(l, aid)
    ensures RemoveAid(l, aid) == l
  {
    if l != [] {
      assert !HasAid(l[1..], aid) by {
        forall i | 0 <= i < |l[1..]| ensures l[1..][i].aid != aid {
          assert l[1..][i] == l[i + 1];
        }
      }
      RemoveAidAbsent(l[1..], aid);
      assert l[0].aid != aid;
      assert l == [l[0]] + l[1..];
    }
  }

  lemma {:induction false} RemoveAidAppend(l: seq<MasterInfo>, x: MasterInfo, aid: Aid)
    ensures RemoveAid(l + [x], aid) == RemoveAid(l, aid) + (if x.aid == aid then [] else [x])
  {
    if l == [] {
      assert [x][1..] == [];
    } else {
      assert (l + [x])[1..] == l[1..] + [x];
      RemoveAidAppend(l[1..], x, aid);
    }
  }

  // ---------------------------------------------------------------------
  // The scheduler object
  // ---------------------------------------------------------------------

  class Scheduler {
    const cfg: Config
    /** The channel width and the RU-allocation switches. */
    const setup: Setup
    var dlcount: int
    var ulcount: int
    var bsrpfraction: int
    var lastTxFormat: TxFormat
    var trigger: TriggerType
    /** `m_staListDl`: one list per access category. */
    var staListDl: map<Ac, seq<MasterInfo>>
    /** `m_staListUl`. */
    var staListUl: seq<MasterInfo>
    /** `m_candidates`: the stations the last trigger frame solicits. */
    var candidates: seq<MasterInfo>

    function GateOf(): Gate
      reads this`dlcount, this`ulcount, this`bsrpfraction, this`lastTxFormat, this`trigger
    {
      Gate(dlcount, ulcount, bsrpfraction, lastTxFormat, trigger)
    }

    /** Every AC has a list and no list holds an AID twice. */
    ghost predicate Valid()
      reads this
    {
      (forall ac :: ac in staListDl) &&
      (forall ac :: ac in staListDl ==> UniqueAids(staListDl[ac])) &&
      UniqueAids(staListUl)
    }

    /** Start-up, including `DoInitialize`'s empty list for each AC. */
    constructor (cfg: Config, setup: Setup)
      ensures Valid() && this.cfg == cfg && this.setup == setup && GateOf() == InitialGate
      ensures staListUl == [] && candidates == [] && forall ac :: ac in staListDl && staListDl[ac] == []
    {
      this.cfg, this.setup := cfg, setup;
      candidates := [];
      dlcount, ulcount, bsrpfraction := DlFraction, UlFraction, BsrpCounter;
      lastTxFormat, trigger := NoTx, BasicTrigger;
      staListDl := map[AcBe := [], AcBk := [], AcVi := [], AcVo := []];
      staListUl := [];
      new;
      forall ac ensures ac in staListDl { AcListed(ac); }
    }

    /** `SelectTxFormat`, with the `TrySending*` answers as inputs. */
    method SelectTxFormat(mpdu: HeadMpdu, out: Outcomes) returns (format: TxFormat)
      modifies this
      ensures var s := Step(cfg, old(GateOf()), mpdu, out); format == s.format && GateOf() == s.gate
      ensures staListDl == old(staListDl) && staListUl == old(staListUl) && candidates == old(candidates)
    {
      if mpdu.Mpdu? && !mpdu.toHeStation {
        format := SuTx;
        if format != NoTx { lastTxFormat := format; }
        return;
      }
      if dlcount <= 0 && ulcount <= 0 {
        dlcount := DlFraction;
        ulcount := UlFraction;
      }
      ghost var g1 := GateOf();
      assert g1 == Refill(old(GateOf()));
      var credit := !cfg.testDlRatio || ulcount > 0;
      if cfg.enableUlOfdma && cfg.enableBsrp && (lastTxFormat == DlMuTx || mpdu.NoMpdu?)
         && trigger != BsrpTrigger && credit
      {
        var done;
        done, format := TryBsrpTf(out);
        if done {
          return;
        }
      } else if cfg.enableUlOfdma && (lastTxFormat == DlMuTx || trigger == BsrpTrigger || mpdu.NoMpdu?)
                && credit
      {
        var done;
        done, format := TryBasicTf(out);
        if done {
          return;
        }
      }
      format := out.dlMuPpdu;
      if format == DlMuTx {
        dlcount := dlcount - 1;
      }
      if format != NoTx { lastTxFormat := format; }
    }

    /**
     * The BSRP branch of `SelectTxFormat`: `done` when it returns the
     * `TrySendingBsrpTf` answer, otherwise the gate the downlink attempt
     * starts from.
     */
    method TryBsrpTf(out: Outcomes) returns (done: bool, format: TxFormat)
      modifies this`trigger, this`bsrpfraction, this`lastTxFormat
      ensures var s := BsrpBranch(cfg, old(GateOf()), out);
              if done then format == s.format && GateOf() == s.gate
              else s == FallToDl(GateOf(), out, {TriedBsrpTf})
    {
      var txFormat := out.bsrpTf;
      if txFormat == NoTx || txFormat == UlMuTx {
        trigger := BsrpTrigger;
      }
      if txFormat != DlMuTx {
        if cfg.bsrpLimit {
          bsrpfraction := bsrpfraction - 1;
          if bsrpfraction <= 0 {
            bsrpfraction := BsrpCounter;
            format := txFormat;
            if format != NoTx { lastTxFormat := format; }
            return true, format;
          }
        } else {
          format := txFormat;
          if format != NoTx { lastTxFormat := format; }
          return true, format;
        }
      }
      return false, txFormat;
    }

    /**
     * The Basic Trigger Frame branch of `SelectTxFormat`: `done` when it
     * returns the `TrySendingBasicTf` answer, otherwise the gate the downlink
     * attempt starts from.
     */
    method TryBasicTf(out: Outcomes) returns (done: bool, format: TxFormat)
      modifies this`trigger, this`ulcount, this`lastTxFormat
      ensures var s := BasicBranch(old(GateOf()), out);
              if done then format == s.format && GateOf() == s.gate
              else s == FallToDl(GateOf(), out, {TriedBasicTf})
    {
      var txFormat := out.basicTf;
      if txFormat == NoTx || txFormat == UlMuTx {
        trigger := BasicTrigger;
      }
      if txFormat == UlMuTx {
        ulcount := ulcount - 1;
      }
      if txFormat != DlMuTx {
        format := txFormat;
        if format != NoTx { lastTxFormat := format; }
        return true, format;
      }
      return false, txFormat;
    }

    /**
     * `NotifyStationAssociated`: non-HE stations are ignored; an HE station
     * is appended, under the address the AP maps its AID to, to every list
     * that does not hold its AID yet. `mldOrLinkAddress` is that mapping's
     * answer; when it has none the code's assertion fails, which is `false`.
     */
    method NotifyStationAssociated(aid: Aid, heSupported: bool, mldOrLinkAddress: Option<Mac>)
      returns (ok: bool)
      requires Valid()
      modifies this`staListDl, this`staListUl
      ensures Valid()
      ensures GateOf() == old(GateOf()) && candidates == old(candidates)
      ensures ok == (!heSupported || mldOrLinkAddress.Some?)
      ensures !heSupported || !ok ==> staListDl == old(staListDl) && staListUl == old(staListUl)
      ensures heSupported && ok ==>
        staListUl == AddOnce(old(staListUl), aid, mldOrLinkAddress.value) &&
        forall ac :: staListDl[ac] == AddOnce(old(staListDl)[ac], aid, mldOrLinkAddress.value)
    {
      if !heSupported {
        return true;
      }
      if mldOrLinkAddress.None? {
        return false;
      }
      var address := mldOrLinkAddress.value;
      var ul := staListUl;
      assert UniqueAids(ul);
      var lists := AddToAll(staListDl, aid, address);
      AddOnceUnique(ul, aid, address);
      staListDl := lists;
      staListUl := AddOnce(ul, aid, address);
      ok := true;
    }

    /**
     * `NotifyStationDeassociated`: non-HE stations are ignored, and so is a
     * station of a multi-link device that is still associated through
     * another link (`stillAssociated`); otherwise every entry with the AID
     * leaves every list.
     */
    method NotifyStationDeassociated(aid: Aid, heSupported: bool, mldOrLinkAddress: Option<Mac>,
                                     stillAssociated: bool)
      returns (ok: bool)
      requires Valid()
      modifies this`staListDl, this`staListUl
      ensures Valid()
      ensures GateOf() == old(GateOf()) && candidates == old(candidates)
      ensures ok == (!heSupported || mldOrLinkAddress.Some?)
      ensures !heSupported || !ok || stillAssociated ==>
        staListDl == old(staListDl) && staListUl == old(staListUl)
      ensures heSupported && ok && !stillAssociated ==>
        staListUl == RemoveAid(old(staListUl), aid) &&
        forall ac :: staListDl[ac] == RemoveAid(old(staListDl)[ac], aid)
    {
      if !heSupported {
        return true;
      }
      if mldOrLinkAddress.None? {
        return false;
      }
      ok := true;
      if stillAssociated {
        return;
      }
      var ul := staListUl;
      assert UniqueAids(ul);
      var lists := RemoveFromAll(staListDl, aid);
      RemoveAidUnique(ul, aid);
      staListDl := lists;
      staListUl := RemoveAid(ul, aid);
    }

    /**
     * `GetTxVectorForUlMu` followed by `FinalizeTxVector`: for a Basic
     * Trigger Frame with BSRP on, `m_staListUl` is sorted in place by
     * buffer status; `m_candidates` ends up holding the served stations.
     */
    method GetTxVectorForUlMu(view: StationView, basicTf: bool, lib: Library)
      returns (txVector: Result<Finalized<Ru>>, allocation: seq<Ru>)
      requires Valid() && Central26.IsSize(|staListUl|)
      modifies this`staListUl, this`candidates
      ensures Valid()
      ensures staListUl == WalkOrder(old(staListUl), view.status, basicTf && cfg.enableBsrp)
      ensures txVector == TxVectorForUlMu(setup, cfg.enableBsrp, basicTf, old(staListUl), view, lib, allocation)
      ensures PackedFor(setup, basicTf, UlCandidates(old(staListUl), view, basicTf && cfg.enableBsrp),
                        view.status, allocation)
      ensures candidates == if txVector.Success? then txVector.value.served
                            else UlCandidates(old(staListUl), view, basicTf && cfg.enableBsrp)
    {
      var walked;
      WalkOrderPermutes(staListUl, view.status, basicTf && cfg.enableBsrp);
      walked, txVector, allocation := BuildTxVector(setup, cfg.enableBsrp, basicTf, staListUl, view, lib);
      candidates := if txVector.Success? then txVector.value.served
                    else UlCandidates(staListUl, view, basicTf && cfg.enableBsrp);
      staListUl := walked;
    }

    /**
     * The RU assignment of `ComputeDlMuInfo` (dlulratio_scheduler.cpp:2281-2293):
     * no DL MU information without candidates; otherwise the downlink
     * branch of `FinalizeTxVector`, whose proportional branch is switched
     * off, so always the equal split. A successful split leaves the served
     * candidates in `m_candidates`.
     */
    method ComputeDlMuInfo(lib: Library) returns (info: Option<Result<Finalized<Ru>>>)
      requires Central26.IsSize(|candidates|)
      modifies this`candidates
      ensures old(candidates) == [] ==> info == None && candidates == []
      ensures old(candidates) != [] ==>
                info == Some(EqualSplitFinalize(old(candidates), setup.mhz, lib, setup.useCentral26))
      ensures info.Some? && info.value.Success? ==> candidates == info.value.value.served
      ensures info.Some? && info.value.Failure? ==> candidates == old(candidates)
    {
      if candidates == [] {
        return None;
      }
      var txVector, _ := FinalizeTxVector(setup, false, candidates, (m: Mac) => 0 as byte, lib);
      info := Some(txVector);
      if txVector.Success? {
        candidates := txVector.value.served;
      }
    }

    /**
     * `TrySendingBasicTf` (dlulratio_scheduler.cpp:1309-1526): the answer is `BasicTfAnswer`
     * of the uplink list before the call. The early exits leave the lists
     * alone; otherwise `m_staListUl` is left in the order it was walked in
     * and a grant leaves its served stations in `m_candidates`. The
     * trigger type and the uplink count it updates are part of the gate
     * (`TryBasicTf`).
     */
    method TrySendingBasicTf(view: StationView, ulPsduSize: uint32, addressOf: Aid -> Mac, lib: Library,
                             timing: Timing)
      returns (res: Answer, allocation: seq<Ru>)
      requires Valid() && Central26.IsSize(|staListUl|)
      modifies this`staListUl, this`candidates
      ensures Valid()
      ensures res == BasicTfAnswer(setup, cfg.enableBsrp, old(staListUl), view, ulPsduSize, addressOf, lib,
                                   allocation, timing)
      ensures old(staListUl) == [] || ulPsduSize == 0 ==>
                staListUl == old(staListUl) && candidates == old(candidates) && allocation == []
      ensures old(staListUl) != [] && ulPsduSize != 0 ==>
                staListUl == WalkOrder(old(staListUl), view.status, cfg.enableBsrp) &&
                PackedFor(setup, true, UlCandidates(old(staListUl), view, cfg.enableBsrp), view.status, allocation)
      ensures res.Granted? ==> candidates == res.served
    {
      if staListUl == [] {
        return Return(SuTx), [];
      }
      if ulPsduSize == 0 {
        return Aborted("The UlPsduSize attribute must be set to a non-null value"), [];
      }
      var txVector;
      txVector, allocation := GetTxVectorForUlMu(view, true, lib);
      if txVector.Failure? {
        return Aborted(txVector.reason), allocation;
      }
      if txVector.value.users == [] {
        return Return(DlMuTx), allocation;
      }
      res := GrantFor(setup, txVector.value, view.status, ulPsduSize, addressOf, timing);
    }
  }

  /** The loop of `NotifyStationAssociated` over the access categories. */
  method AddToAll(before: map<Ac, seq<MasterInfo>>, aid: Aid, address: Mac)
    returns (lists: map<Ac, seq<MasterInfo>>)
    requires forall ac :: ac in before && UniqueAids(before[ac])
    ensures forall ac :: ac in lists && UniqueAids(lists[ac]) && lists[ac] == AddOnce(before[ac], aid, address)
  {
    lists := before;
    var k := 0;
    while k < |AllAcs|
      invariant 0 <= k <= |AllAcs|
      invariant forall ac :: ac in lists &&
                  lists[ac] == if ac in AllAcs[..k] then AddOnce(before[ac], aid, address) else before[ac]
    {
      var ac := AllAcs[k];
      lists := lists[ac := AddOnce(before[ac], aid, address)];
      assert AllAcs[..k + 1] == AllAcs[..k] + [ac];
      k := k + 1;
    }
    assert AllAcs[..k] == AllAcs;
    forall ac ensures ac in AllAcs && UniqueAids(lists[ac]) {
      AcListed(ac);
      AddOnceUnique(before[ac], aid, address);
    }
  }

  /** The loop of `NotifyStationDeassociated` over the access categories. */
  method RemoveFromAll(before: map<Ac, seq<MasterInfo>>, aid: Aid)
    returns (lists: map<Ac, seq<MasterInfo>>)
    requires forall ac :: ac in before && UniqueAids(before[ac])
    ensures forall ac :: ac in lists && UniqueAids(lists[ac]) && lists[ac] == RemoveAid(before[ac], aid)
  {
    lists := before;
    var k := 0;
    while k < |AllAcs|
      invariant 0 <= k <= |AllAcs|
      invariant forall ac :: ac in lists &&
                  lists[ac] == if ac in AllAcs[..k] then RemoveAid(before[ac], aid) else before[ac]
    {
      var ac := AllAcs[k];
      lists := lists[ac := RemoveAid(before[ac], aid)];
      assert AllAcs[..k + 1] == AllAcs[..k] + [ac];
      k := k + 1;
    }
    assert AllAcs[..k] == AllAcs;
    forall ac ensures ac in AllAcs && UniqueAids(lists[ac]) {
      AcListed(ac);
      RemoveAidUnique(before[ac], aid);
    }
  }
}
