/**
 * What every multi-user scheduler variant shares with ns-3's
 * `MultiUserScheduler` base class: the TX format a call of
 * `SelectTxFormat` decides on, the kind of Trigger Frame last built, and
 * the answers of the three `TrySending*` attempts, which the state
 * machines take as inputs.
 */
module MuScheduler {

  datatype TxFormat = SuTx | DlMuTx | UlMuTx | NoTx

  datatype TriggerType = BasicTrigger | BsrpTrigger

  /** The answers the three `TrySending*` calls would give, should they be made. */
  datatype Outcomes = Outcomes(bsrpTf: TxFormat, basicTf: TxFormat, dlMuPpdu: TxFormat)

  datatype Attempt = TriedBsrpTf | TriedBasicTf | TriedDlMuPpdu
}
