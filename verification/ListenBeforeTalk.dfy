/**
 * Listen before talk, twice: the main loop's direct path (daemon_data_tx_runtime.cpp)
 * and the worker's queued path (daemon_tx_executor.cpp), against one policy; and the
 * ticks that bound them (daemon_tx_policy.h).
 *
 * The channel is any sequence of probe answers, by the number of the probe.
 */
module ListenBeforeTalk {
  import opened TxJob

  // ---- ticks --------------------------------------------------------------------------------

  function U32(n: nat): nat {
    n % 0x1_0000_0000
  }

  /** Milliseconds to polling ticks, rounded up, in 32-bit arithmetic. */
  function TicksForMs(timeoutMs: nat, intervalMs: nat): nat
    requires timeoutMs < 0x1_0000_0000 && intervalMs < 0x1_0000_0000
  {
    if intervalMs == 0 then 0 else U32(timeoutMs + intervalMs + 0xFFFF_FFFF) / intervalMs
  }

  predicate LegalWaitMs(ms: nat) {
    50 <= ms <= 5000
  }

  predicate LegalIdleMs(ms: nat) {
    ms <= 2000
  }

  predicate LegalPollMs(ms: nat) {
    10 <= ms <= 500
  }

  /** With the values a client can set, both loops wait at least one and at most 500
      ticks, and never shorter nor a whole tick longer than asked. */
  lemma LegalTicks(waitMs: nat, idleMs: nat, pollMs: nat)
    requires LegalWaitMs(waitMs) && LegalIdleMs(idleMs) && LegalPollMs(pollMs)
    ensures 1 <= TicksForMs(waitMs, pollMs) <= 500
    ensures TicksForMs(idleMs, pollMs) <= 200 && (TicksForMs(idleMs, pollMs) == 0 <==> idleMs == 0)
    ensures waitMs <= TicksForMs(waitMs, pollMs) * pollMs < waitMs + pollMs
    ensures idleMs <= TicksForMs(idleMs, pollMs) * pollMs < idleMs + pollMs
    ensures TicksForMs(waitMs, 0) == 0
  {
    Rounding(waitMs, pollMs);
    Rounding(idleMs, pollMs);
    UpTo(waitMs, pollMs, 5000, 500);
    UpTo(idleMs, pollMs, 2000, 200);
  }

  lemma Rounding(ms: nat, poll: nat)
    requires ms < 0x1000_0000 && 0 < poll < 0x1000_0000
    ensures ms <= TicksForMs(ms, poll) * poll < ms + poll
    ensures TicksForMs(ms, poll) == 0 <==> ms == 0
  {
    var up := ms + poll - 1;
    assert ms + poll + 0xFFFF_FFFF == up + 0x1_0000_0000;
    assert U32(ms + poll + 0xFFFF_FFFF) == up;
    var q := up / poll;
    assert up == q * poll + up % poll;
    if ms == 0 {
      assert q == 0;
    } else if q == 0 {
      assert false;
    }
  }

  lemma UpTo(ms: nat, poll: nat, most: nat, ticks: nat)
    requires ms <= most <= 5000 && 10 <= poll <= 500 && most == 10 * ticks
    ensures TicksForMs(ms, poll) <= ticks
  {
    Rounding(ms, poll);
    TicksBounded(TicksForMs(ms, poll), poll, ms, ticks);
  }

  lemma TicksBounded(q: nat, poll: nat, ms: nat, ticks: nat)
    requires q * poll < ms + poll && ms <= 10 * ticks && poll >= 10
    ensures q <= ticks
  {
    if q > 0 {
      AtLeastTen(q - 1, poll);
      assert q * poll == (q - 1) * poll + poll;
    }
  }

  lemma AtLeastTen(n: nat, poll: nat)
    requires poll >= 10
    ensures n * poll >= 10 * n
  {
    assert n * poll == n * (poll - 10) + n * 10;
    assert n * (poll - 10) >= 0;
  }

  // ---- the policy ---------------------------------------------------------------------------

  datatype Probe = ProbeFree | ProbeBusy | Unavailable

  type Channel = nat -> Probe

  /** How many probes in a row, up to the n-th, were free. */
  function Streak(ch: Channel, n: nat): (r: nat)
    ensures r <= n
  {
    if n == 0 || ch(n - 1) != ProbeFree then 0 else Streak(ch, n - 1) + 1
  }

  /** The streak is long enough exactly when the last `run` probes were all free. */
  lemma {:induction false} StreakIsRun(ch: Channel, n: nat, run: nat)
    ensures Streak(ch, n) >= run <==> run <= n && forall j | n - run <= j < n :: ch(j) == ProbeFree
  {
    if n > 0 && run > 0 {
      StreakIsRun(ch, n - 1, run - 1);
      if Streak(ch, n) >= run {
        forall j | n - run <= j < n ensures ch(j) == ProbeFree {
        }
      } else if run <= n && ch(n - 1) == ProbeFree {
        assert exists j :: n - run <= j < n - 1 && ch(j) != ProbeFree;
      }
    }
  }

  /** The run of free probes asked for, and one at least. */
  function Required(stable: nat): (r: nat)
    ensures r >= 1 && r >= stable && (r == 1 || r == stable)
  {
    if stable == 0 then 1 else stable
  }

  datatype Verdict = Clear | TimedOut | ProbeError | Pending

  datatype Decision = Decision(verdict: Verdict, probes: nat)

  /** What is decided from the n-th probe on: `rx` tells whether a received packet of our
      own is waiting to be read. */
  function Listen(ch: Channel, rx: nat -> bool, required: nat, limit: nat, n: nat): Decision
    decreases limit - n
  {
    if n >= limit then Decision(TimedOut, n)
    else if ch(n) == Unavailable then Decision(ProbeError, n + 1)
    else if rx(n) then Decision(Pending, n + 1)
    else if Streak(ch, n + 1) >= required then Decision(Clear, n + 1)
    else Listen(ch, rx, required, limit, n + 1)
  }

  /** Probe k ends a run of free probes that is long enough, before the limit, before any
      failed probe and before any packet of our own. */
  ghost predicate ClearAt(ch: Channel, rx: nat -> bool, required: nat, limit: nat, k: nat) {
    && k < limit
    && (forall j | 0 <= j <= k :: ch(j) != Unavailable && !rx(j))
    && required <= k + 1
    && (forall j | k + 1 - required <= j <= k :: ch(j) == ProbeFree)
  }

  /** The channel is found clear if and only if such a probe exists. */
  lemma ClearExactly(ch: Channel, rx: nat -> bool, required: nat, limit: nat)
    requires required >= 1
    ensures Listen(ch, rx, required, limit, 0).verdict == Clear <==> exists k :: ClearAt(ch, rx, required, limit, k)
  {
    if k :| ClearAt(ch, rx, required, limit, k) {
      ClearFound(ch, rx, required, limit, k, 0);
    }
    if Listen(ch, rx, required, limit, 0).verdict == Clear {
      ClearComesFrom(ch, rx, required, limit, 0);
      var k := Listen(ch, rx, required, limit, 0).probes - 1;
      StreakIsRun(ch, k + 1, required);
      assert ClearAt(ch, rx, required, limit, k);
    }
  }

  lemma {:induction false} ClearFound(ch: Channel, rx: nat -> bool, required: nat, limit: nat, k: nat, n: nat)
    requires ClearAt(ch, rx, required, limit, k) && n <= k
    ensures Listen(ch, rx, required, limit, n).verdict == Clear
    decreases k - n
  {
    StreakIsRun(ch, k + 1, required);
    if n < k {
      ClearFound(ch, rx, required, limit, k, n + 1);
    }
  }

  lemma {:induction false} ClearComesFrom(ch: Channel, rx: nat -> bool, required: nat, limit: nat, n: nat)
    requires Listen(ch, rx, required, limit, n).verdict == Clear
    ensures var k := Listen(ch, rx, required, limit, n).probes - 1;
            && n <= k < limit && Streak(ch, k + 1) >= required
            && forall j | n <= j <= k :: ch(j) != Unavailable && !rx(j)
    decreases limit - n
  {
    if Streak(ch, n + 1) < required {
      ClearComesFrom(ch, rx, required, limit, n + 1);
    }
  }

  /** A packet of our own never gives way to the timeout: the attempt ends there, and
      nothing is sent over it. */
  lemma {:induction false} PendingNeverTimesOut(ch: Channel, rx: nat -> bool, required: nat, limit: nat, n: nat, k: nat)
    requires n <= k < limit && rx(k)
    ensures Listen(ch, rx, required, limit, n).verdict != TimedOut
    decreases limit - n
  {
    if n < k {
      PendingNeverTimesOut(ch, rx, required, limit, n + 1, k);
    }
  }

  /** The answer to this probe ends the listening. */
  predicate Settles(ch: Channel, rx: nat -> bool, required: nat, k: nat) {
    ch(k) == Unavailable || rx(k) || Streak(ch, k + 1) >= required
  }

  /** How listening ends: at the first probe that ends it, in an error if that probe failed,
      else for a packet of our own, else with the channel clear; and without one in the
      timeout, once the limit is reached and not before. */
  lemma {:induction false} VerdictExactly(ch: Channel, rx: nat -> bool, required: nat, limit: nat, n: nat, k: nat)
    requires n <= k <= limit && forall j | n <= j < k :: !Settles(ch, rx, required, j)
    requires k < limit ==> Settles(ch, rx, required, k)
    ensures Listen(ch, rx, required, limit, n)
            == if k == limit then Decision(TimedOut, limit)
               else Decision(if ch(k) == Unavailable then ProbeError else if rx(k) then Pending else Clear, k + 1)
    decreases k - n
  {
    if n < k {
      assert !Settles(ch, rx, required, n);
      VerdictExactly(ch, rx, required, limit, n + 1, k);
    } else if k < limit {
      assert Settles(ch, rx, required, k);
    }
  }

  // ---- the direct path -----------------------------------------------------------------------

  datatype CadWait = WaitFree | WaitBlock | WaitTimeoutSend | WaitError

  function DirectDecision(d: Decision, sendAfter: bool): CadWait {
    match d.verdict
    case Clear => WaitFree
    case TimedOut => if sendAfter then WaitTimeoutSend else WaitBlock
    case ProbeError => WaitError
    case Pending => WaitBlock
  }

  /** `lbt`: the band is in LoRa and managed; otherwise there is nothing to wait for. */
  method WaitChannelFree(lbt: bool, ch: Channel, rx: nat -> bool, maxTicks: nat, stableTicks: nat, sendAfter: bool)
    returns (r: CadWait, probes: nat)
    ensures !lbt ==> r == WaitFree && probes == 0
    ensures lbt ==> var d := Listen(ch, rx, Required(stableTicks), maxTicks, 0);
                    r == DirectDecision(d, sendAfter) && probes == d.probes
  {
    probes := 0;
    if !lbt {
      return WaitFree, 0;
    }
    var cadWait, freeTicks := 0, 0;
    var required := if stableTicks > 0 then stableTicks else 1;
    while cadWait < maxTicks
      invariant probes == cadWait <= maxTicks && freeTicks == Streak(ch, cadWait)
      invariant Listen(ch, rx, required, maxTicks, 0) == Listen(ch, rx, required, maxTicks, cadWait)
      decreases maxTicks - cadWait
    {
      var probe := ch(probes);
      probes := probes + 1;
      if probe == Unavailable {
        return WaitError, probes;
      }
      if rx(probes - 1) {
        return WaitBlock, probes;
      }
      if probe != ProbeBusy {
        freeTicks := freeTicks + 1;
        if freeTicks >= required {
          return WaitFree, probes;
        }
      } else {
        freeTicks := 0;
      }
      cadWait := cadWait + 1;
    }
    r := if sendAfter then WaitTimeoutSend else WaitBlock;
  }

  // ---- the queued path -------------------------------------------------------------------------

  function NoRx(n: nat): bool {
    false
  }

  /** Without a limit the executor listens until something is decided. */
  ghost predicate Decides(ch: Channel, required: nat, n: nat) {
    ch(n) == Unavailable || Streak(ch, n + 1) >= required
  }

  ghost predicate Ends(ch: Channel, cad: Cad, end: nat) {
    !cad.enabled || cad.waitTicks > 0 || Decides(ch, Required(cad.idleTicks), end)
  }

  /** The result of a job whose listening was decided: `sent` is what the radio answered. */
  function QueuedResult(job: Job, d: Decision, sent: TxResult): JobResult {
    match d.verdict
    case Clear => SentResult(job, sent)
    case TimedOut =>
      if job.cad.sendAfterTimeout then SentResult(job.(cadTimeout := true), sent)
      else ResultOf(job, OutChannelBusy)
    case _ => ResultOf(job, OutRadioError)
  }

  function SentResult(job: Job, sent: TxResult): JobResult {
    ResultOf(job, FromTxResult(sent)).(txResult := sent)
  }

  function QueuedLimit(cad: Cad, end: nat): nat {
    if cad.waitTicks > 0 then cad.waitTicks else end + 1
  }

  /** `end` bounds a wait without limit; it plays no part in the result of one with. */
  method ExecuteJob(job: Job, ch: Channel, sent: TxResult, ghost end: nat) returns (r: JobResult, probes: nat)
    requires Ends(ch, job.cad, end)
    ensures !job.cad.enabled ==> r == SentResult(job, sent) && probes == 0
    ensures job.cad.enabled ==>
              var d := Listen(ch, NoRx, Required(job.cad.idleTicks), QueuedLimit(job.cad, end), 0);
              r == QueuedResult(job, d, sent) && probes == d.probes
  {
    probes := 0;
    if !job.cad.enabled {
      return SentResult(job, sent), 0;
    }
    var runJob := job;
    var idle, elapsed := 0, 0;
    var stable := if job.cad.idleTicks == 0 then 1 else job.cad.idleTicks;
    ghost var limit := QueuedLimit(job.cad, end);
    assert job.cad.waitTicks == 0 ==> Decides(ch, stable, end);
    while true
      invariant probes == elapsed < limit && idle == Streak(ch, elapsed) && runJob == job
      invariant Listen(ch, NoRx, stable, limit, 0) == Listen(ch, NoRx, stable, limit, elapsed)
      decreases limit - elapsed
    {
      var probe := ch(probes);
      probes := probes + 1;
      if probe == ProbeFree {
        idle := idle + 1;
        if idle >= stable {
          break;
        }
      } else if probe == ProbeBusy {
        idle := 0;
      } else {
        return ResultOf(runJob, OutRadioError), probes;
      }
      elapsed := elapsed + 1;
      if job.cad.waitTicks > 0 && elapsed >= job.cad.waitTicks {
        if runJob.cad.sendAfterTimeout {
          runJob := runJob.(cadTimeout := true);
          break;
        }
        return ResultOf(runJob, OutChannelBusy), probes;
      }
    }
    r := SentResult(runJob, sent);
  }

  // ---- one policy --------------------------------------------------------------------------------

  /** The result the direct path gives a job, with the job's own policy. */
  function DirectResult(job: Job, w: CadWait, sent: TxResult): JobResult {
    match w
    case WaitFree => SentResult(job, sent)
    case WaitTimeoutSend => SentResult(job.(cadTimeout := true), sent)
    case WaitBlock => ResultOf(job, OutChannelBusy)
    case WaitError => ResultOf(job, OutRadioError)
  }

  /** Free of packets of our own, both paths decide every channel alike, after the same
      number of probes: send, send with the CAD-timeout flag, channel busy, radio error. */
  lemma OnePolicy(job: Job, ch: Channel, sent: TxResult, end: nat)
    requires job.cad.enabled && job.cad.waitTicks > 0
    ensures var direct := Listen(ch, NoRx, Required(job.cad.idleTicks), job.cad.waitTicks, 0);
            var queued := Listen(ch, NoRx, Required(job.cad.idleTicks), QueuedLimit(job.cad, end), 0);
            && direct.probes == queued.probes
            && DirectResult(job, DirectDecision(direct, job.cad.sendAfterTimeout), sent) == QueuedResult(job, queued, sent)
  {
    NeverPending(ch, Required(job.cad.idleTicks), job.cad.waitTicks, 0);
  }

  lemma {:induction false} NeverPending(ch: Channel, required: nat, limit: nat, n: nat)
    ensures Listen(ch, NoRx, required, limit, n).verdict != Pending
    decreases limit - n
  {
    if n < limit {
      NeverPending(ch, required, limit, n + 1);
    }
  }

  /** With a wait of 0 ticks the paths part: the direct one times out unprobed, the queued
      one listens until it is decided, however long. */
  lemma ZeroWaitParts(job: Job, ch: Channel, end: nat)
    requires job.cad.enabled && job.cad.waitTicks == 0 && Decides(ch, Required(job.cad.idleTicks), end)
    ensures Listen(ch, NoRx, Required(job.cad.idleTicks), job.cad.waitTicks, 0) == Decision(TimedOut, 0)
    ensures Listen(ch, NoRx, Required(job.cad.idleTicks), QueuedLimit(job.cad, end), 0).verdict in {Clear, ProbeError}
  {
    DecidedWithin(ch, Required(job.cad.idleTicks), end, 0);
  }

  lemma {:induction false} DecidedWithin(ch: Channel, required: nat, end: nat, n: nat)
    requires n <= end && Decides(ch, required, end)
    ensures Listen(ch, NoRx, required, end + 1, n).verdict in {Clear, ProbeError}
    decreases end - n
  {
    if n < end {
      DecidedWithin(ch, required, end, n + 1);
    }
  }
}
