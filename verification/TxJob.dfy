/**
 * TX jobs and their results (daemon_tx_job.h, daemon_tx_outcome.h, tx_result.h).
 */
module TxJob {
  import opened Prelude
  import opened FramedData

  datatype Outcome = OutOk | OutBusy | OutChannelBusy | OutRadioNotReady | OutRadioError | OutInvalidPacket | OutInvalidBand

  datatype TxResult = TxOk | TxInvalidBand | TxInvalidPacket | TxBusy | TxCadTimeout | TxRadioNotReady | TxRadioError

  function FromTxResult(r: TxResult): Outcome {
    match r
    case TxOk => OutOk
    case TxBusy => OutBusy
    case TxCadTimeout => OutChannelBusy
    case TxRadioNotReady => OutRadioNotReady
    case TxInvalidPacket => OutInvalidPacket
    case TxInvalidBand => OutInvalidBand
    case TxRadioError => OutRadioError
  }

  function ToTxResult(o: Outcome): TxResult {
    match o
    case OutOk => TxOk
    case OutBusy => TxBusy
    case OutChannelBusy => TxCadTimeout
    case OutRadioNotReady => TxRadioNotReady
    case OutInvalidPacket => TxInvalidPacket
    case OutInvalidBand => TxInvalidBand
    case OutRadioError => TxRadioError
  }

  /** The status byte of a TX_RESULT frame. */
  function FramedStatus(o: Outcome): byte {
    match o
    case OutOk => 0
    case OutBusy => 1
    case OutChannelBusy => 2
    case OutRadioNotReady => 3
    case OutRadioError => 4
    case OutInvalidPacket => 5
    case OutInvalidBand => STATUS_INVALID_BAND
  }

  /** Outcomes and TX results are the same thing in two encodings; the status byte keeps
      them apart and is always one the TX_RESULT encoder accepts. */
  lemma OutcomesRoundTrip(o: Outcome, p: Outcome, r: TxResult)
    ensures FromTxResult(ToTxResult(o)) == o && ToTxResult(FromTxResult(r)) == r
    ensures FramedStatus(o) <= STATUS_INVALID_BAND
    ensures FramedStatus(o) == FramedStatus(p) <==> o == p
  {
  }

  const SLOT_NONE := -1

  const FLAG_MANAGED: nat := 0x01
  const FLAG_CAD_TIMEOUT: nat := 0x04

  /** The CAD policy a job carries from the moment it is accepted. */
  datatype Cad = Cad(enabled: bool, waitTicks: nat, idleTicks: nat, pollUsec: nat, sendAfterTimeout: bool)

  const CAD_OFF := Cad(false, 0, 0, 0, false)

  datatype Job = Job(seq_: nat, managed: bool, cadTimeout: bool, cad: Cad, payload: seq<byte>, slot: int, generation: nat)

  /** `flags` of the wire format, from the job's two flags. */
  function Flags(managed: bool, cadTimeout: bool): byte {
    (if managed then FLAG_MANAGED else 0) + if cadTimeout then FLAG_CAD_TIMEOUT else 0
  }

  datatype JobResult = JobResult(seq_: nat, flags: byte, outcome: Outcome, txResult: TxResult, slot: int, generation: nat)

  function ResultOf(job: Job, outcome: Outcome): JobResult {
    JobResult(job.seq_, Flags(job.managed, job.cadTimeout), outcome, ToTxResult(outcome), job.slot, job.generation)
  }

  /** A result that answers this job: to its submitter, under its sequence number. */
  predicate Answers(r: JobResult, job: Job) {
    r.seq_ == job.seq_ && r.slot == job.slot && r.generation == job.generation
  }
}
