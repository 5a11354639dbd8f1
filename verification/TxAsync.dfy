/**
 * The asynchronous TX worker (daemon_tx_async_worker.cpp) and the main loop that feeds,
 * starts and stops it and gates CONFIG on it (config_dispatch.cpp), as interleaved atomic
 * steps: a block under the worker's lock is one step; the main loop reads `pending` and
 * `job_active` in two.
 *
 * Only the main loop submits, starts, stops and applies CONFIG lines.
 */
module TxAsync {
  import opened Prelude
  import opened TxJob
  import TxQueue
  import TxCompletion
  import opened ConfigParser
  import opened ConfigPolicy
  import opened ConfigApply
  import opened ConfigApplyReplay

  // ---- the worker's locked fields -----------------------------------------------------------

  datatype Counters = Counters(accepted: nat, rejected: nat, processed: nat, dropped: nat)

  datatype Async = Async(queue: seq<Job>, n: Counters, running: bool, stop: bool, active: bool, last: Option<JobResult>)

  const INIT := Async([], Counters(0, 0, 0, 0), false, false, false, None)

  predicate Accepts(a: Async) {
    !a.stop && |a.queue| < TxQueue.JOBS
  }

  function Submit(a: Async, job: Job): Async {
    if Accepts(a) then a.(queue := a.queue + [job], n := a.n.(accepted := a.n.accepted + 1))
    else a.(n := a.n.(rejected := a.n.rejected + 1))
  }

  /** The worker's locked block: pop a job and be active. */
  function Take(a: Async): Async
    requires a.queue != []
  {
    a.(queue := a.queue[1..], active := true)
  }

  function Record(a: Async, r: JobResult): Async {
    a.(n := a.n.(processed := a.n.processed + 1), last := Some(r))
  }

  function RequestStop(a: Async): Async {
    a.(stop := true, queue := [], n := a.n.(dropped := a.n.dropped + |a.queue|))
  }

  // ---- the two threads -------------------------------------------------------------------------

  /** What the radio is tuned to. */
  datatype Rf = Rf(mode: Mode, driver: Driver)

  /** Where the worker is. It carries what the radio was tuned to when its job was
      accepted. */
  datatype Thread =
    | NoThread
    | AtLock
    | Executing(job: Job, tuned: Rf)
    | Executed(job: Job, r: JobResult)
    | Recording(job: Job, r: JobResult)

  /** Where the main loop is. */
  datatype Main =
    | Free
    | ConfPending(line: string)
    | ConfActive(line: string, pending: nat)
    | ConfApply(line: string)
    | OffPending
    | OffActive(pending: nat)
    | OffSet
    | SendPending
    | SendActive(pending: nat)
    | Sending
    | Joining

  /** What became of the jobs of this start of the worker. */
  datatype Jobs = Jobs(accepted: seq<Job>, done: seq<Job>, results: seq<JobResult>, discarded: seq<Job>)

  /** The last answer to a command or a direct send: BUSY without a change, or what it did. */
  datatype Reply = NoReply | Busy | Ok | Replied(status: Status)

  datatype Sys = Sys(a: Async, thread: Thread, main: Main, pipe: Pipe, queueOn: bool, tuned: seq<Rf>, jobs: Jobs, reply: Reply)

  function Tuned(p: Pipe): Rf {
    Rf(p.mode, p.driver)
  }

  /** One atomic step of either thread; one that is not possible does nothing. */
  datatype Action =
    // the main loop, when free
    | SubmitJob(job: Job)
    | StartWorker(created: bool)
    | StopWorker
    | ConfLine(line: string)
    | QueueOff
    | QueueOn
    | DirectSend
    // the main loop, going on
    | ReadPending
    | ReadActive
    | Finish(fault: Option<nat>)
    // the worker
    | TakeJob
    | ExitLoop
    | Execute(outcome: Outcome, cadTimeout: bool)
    | ClearActive
    | RecordResult

  function MainStart(s: Sys, act: Action): Sys {
    if s.main != Free then s
    else
      match act
      case SubmitJob(job) =>
        if Accepts(s.a) then
          s.(a := Submit(s.a, job), tuned := s.tuned + [Tuned(s.pipe)], jobs := s.jobs.(accepted := s.jobs.accepted + [job]))
        else s.(a := Submit(s.a, job))
      case StartWorker(created) =>
        if s.a.running then s
        else s.(a := s.a.(stop := false, running := created),
                thread := if created then AtLock else s.thread,
                jobs := if created then Jobs(s.a.queue, [], [], []) else s.jobs)
      case StopWorker =>
        s.(a := RequestStop(s.a), main := Joining, tuned := [], jobs := s.jobs.(discarded := s.jobs.discarded + s.a.queue))
      case ConfLine(line) => s.(main := if TouchesRadio(line) then ConfPending(line) else ConfApply(line))
      case QueueOff => s.(main := OffPending)
      case QueueOn => s.(queueOn := true)
      case DirectSend => if s.queueOn then s else s.(main := SendPending)
      case _ => s
  }

  function MainReadPending(s: Sys): Sys {
    match s.main
    case ConfPending(line) => s.(main := ConfActive(line, |s.a.queue|))
    case OffPending => s.(main := OffActive(|s.a.queue|))
    case SendPending => s.(main := SendActive(|s.a.queue|))
    case _ => s
  }

  /** Pending or executing: the command is answered BUSY and nothing is done. */
  function MainReadActive(s: Sys): Sys {
    match s.main
    case ConfActive(line, pending) => if pending > 0 || s.a.active then s.(main := Free, reply := Busy) else s.(main := ConfApply(line))
    case OffActive(pending) => if pending > 0 || s.a.active then s.(main := Free, reply := Busy) else s.(main := OffSet)
    case SendActive(pending) => if pending > 0 || s.a.active then s.(main := Free, reply := Busy) else s.(main := Sending)
    case _ => s
  }

  function MainFinish(u: Setup, s: Sys, fault: Option<nat>): Sys {
    match s.main
    case ConfApply(line) =>
      var (status, q) := Apply(u, s.pipe, line, fault);
      s.(pipe := q, main := Free, reply := Replied(status))
    case OffSet => s.(queueOn := false, main := Free, reply := Ok)
    case Sending => s.(main := Free)
    case Joining => if s.thread == NoThread then s.(a := s.a.(running := false), main := Free) else s
    case _ => s
  }

  function Worker(s: Sys, act: Action): Sys {
    match act
    case TakeJob =>
      if s.thread == AtLock && s.a.queue != [] && s.tuned != [] then
        s.(a := Take(s.a), tuned := s.tuned[1..], thread := Executing(s.a.queue[0], s.tuned[0]))
      else s
    case ExitLoop =>
      if s.thread == AtLock && s.a.stop && s.a.queue == [] then s.(a := s.a.(running := false), thread := NoThread) else s
    case Execute(outcome, cadTimeout) =>
      if s.thread.Executing? then
        var job := s.thread.job;
        s.(thread := Executed(job, ResultOf(job.(cadTimeout := job.cadTimeout || cadTimeout), outcome)))
      else s
    case ClearActive =>
      if s.thread.Executed? then s.(a := s.a.(active := false), thread := Recording(s.thread.job, s.thread.r)) else s
    case RecordResult =>
      if s.thread.Recording? then
        s.(a := Record(s.a, s.thread.r), thread := AtLock,
           jobs := s.jobs.(done := s.jobs.done + [s.thread.job], results := s.jobs.results + [s.thread.r]))
      else s
    case _ => s
  }

  function Step(u: Setup, s: Sys, act: Action): Sys {
    match act
    case ReadPending => MainReadPending(s)
    case ReadActive => MainReadActive(s)
    case Finish(fault) => MainFinish(u, s, fault)
    case TakeJob => Worker(s, act)
    case ExitLoop => Worker(s, act)
    case Execute(_, _) => Worker(s, act)
    case ClearActive => Worker(s, act)
    case RecordResult => Worker(s, act)
    case _ => MainStart(s, act)
  }

  function Run(u: Setup, s: Sys, acts: seq<Action>): Sys {
    if acts == [] then s else Step(u, Run(u, s, acts[..|acts| - 1]), acts[|acts| - 1])
  }

  function Started(p: Pipe): Sys {
    Sys(INIT, NoThread, Free, p, true, [], Jobs([], [], [], []), NoReply)
  }

  // ---- what every interleaving keeps ------------------------------------------------------------

  /** Nothing is queued and nothing executes. */
  predicate Quiet(s: Sys) {
    s.a.queue == [] && !s.thread.Executing?
  }

  /** The main loop has made sure of that, and holds it by not submitting. */
  predicate Assured(s: Sys) {
    match s.main
    case ConfActive(_, pending) => pending == 0 ==> s.a.queue == []
    case OffActive(pending) => pending == 0 ==> s.a.queue == []
    case SendActive(pending) => pending == 0 ==> s.a.queue == []
    case ConfApply(line) => TouchesRadio(line) ==> Quiet(s)
    case OffSet => Quiet(s)
    case Sending => Quiet(s)
    case Joining => s.a.queue == [] && s.a.stop
    case _ => true
  }

  /** Every waiting job, and the executing one, was accepted under the present tuning. */
  predicate Frozen(s: Sys) {
    && |s.tuned| == |s.a.queue|
    && (forall t | t in s.tuned :: t == Tuned(s.pipe))
    && (s.thread.Executing? ==> s.thread.tuned == Tuned(s.pipe))
  }

  function InFlight(t: Thread): seq<Job> {
    if t.Executing? || t.Executed? || t.Recording? then [t.job] else []
  }

  predicate FlagsAgree(s: Sys) {
    && (s.a.active <==> s.thread.Executing? || s.thread.Executed?)
    && (s.a.running <==> s.thread != NoThread)
    && |s.a.queue| <= TxQueue.JOBS
    && (s.a.stop ==> s.a.queue == [])
    && (s.main != Joining && s.thread != NoThread ==> !s.a.stop)
  }

  /** Each job of this start is done, in flight, discarded or waiting, in the order of
      acceptance; and each result answers its job. */
  predicate InOrder(s: Sys) {
    && s.jobs.accepted == s.jobs.done + InFlight(s.thread) + s.jobs.discarded + s.a.queue
    && (s.jobs.discarded != [] && s.thread != NoThread ==> s.a.stop)
    && |s.jobs.results| == |s.jobs.done|
    && (forall i | 0 <= i < |s.jobs.done| :: Answers(s.jobs.results[i], s.jobs.done[i]))
    && (s.thread.Executed? || s.thread.Recording? ==> Answers(s.thread.r, s.thread.job))
  }

  predicate Counted(s: Sys) {
    s.a.n.accepted == s.a.n.processed + |InFlight(s.thread)| + |s.a.queue| + s.a.n.dropped
  }

  predicate Inv(s: Sys) {
    Assured(s) && Frozen(s) && FlagsAgree(s) && InOrder(s) && Counted(s)
  }

  lemma MainStartKeeps(s: Sys, act: Action)
    requires Inv(s)
    ensures Inv(MainStart(s, act))
  {
    var t := MainStart(s, act);
    if act.SubmitJob? && s.main == Free && Accepts(s.a) {
      assert t.jobs.accepted == t.jobs.done + InFlight(t.thread) + t.jobs.discarded + t.a.queue;
    } else if act.StopWorker? && s.main == Free {
      assert t.jobs.accepted == t.jobs.done + InFlight(t.thread) + t.jobs.discarded + [];
    }
  }

  lemma MainReadPendingKeeps(s: Sys)
    requires Inv(s)
    ensures Inv(MainReadPending(s))
  {
  }

  lemma MainReadActiveKeeps(s: Sys)
    requires Inv(s)
    ensures Inv(MainReadActive(s))
  {
  }

  /** Retuning is harmless when nothing is queued or executing, or when it changes nothing. */
  lemma RetuneKeeps(s: Sys, p: Pipe, reply: Reply)
    requires Inv(s) && (Quiet(s) || Tuned(p) == Tuned(s.pipe))
    ensures Inv(s.(pipe := p, main := if s.main == Joining then Joining else Free, reply := reply))
  {
  }

  lemma MainFinishKeeps(u: Setup, s: Sys, fault: Option<nat>)
    requires Inv(s)
    ensures Inv(MainFinish(u, s, fault))
  {
    if s.main.ConfApply? {
      if !TouchesRadio(s.main.line) {
        UntouchedRadio(u, s.pipe, s.main.line, fault);
      }
      var (status, q) := Apply(u, s.pipe, s.main.line, fault);
      RetuneKeeps(s, q, Replied(status));
    }
  }

  lemma TakeKeeps(s: Sys)
    requires Inv(s) && s.thread == AtLock && s.a.queue != []
    ensures Inv(Worker(s, TakeJob))
  {
    var t := Worker(s, TakeJob);
    assert s.a.queue == [s.a.queue[0]] + s.a.queue[1..];
    assert s.jobs.discarded == [];
    assert t.jobs.done + [s.a.queue[0]] + [] + t.a.queue == s.jobs.done + [] + [] + s.a.queue;
    assert s.tuned[0] in s.tuned;
    forall x | x in t.tuned ensures x == Tuned(t.pipe) {
      assert x in s.tuned;
    }
  }

  lemma RecordKeeps(s: Sys)
    requires Inv(s) && s.thread.Recording?
    ensures Inv(Worker(s, RecordResult))
  {
    var t := Worker(s, RecordResult);
    assert t.jobs.done + [] + t.jobs.discarded + t.a.queue == s.jobs.done + [s.thread.job] + s.jobs.discarded + s.a.queue;
  }

  lemma WorkerKeeps(s: Sys, act: Action)
    requires Inv(s)
    ensures Inv(Worker(s, act))
  {
    if act.TakeJob? && s.thread == AtLock && s.a.queue != [] {
      TakeKeeps(s);
    } else if act.RecordResult? && s.thread.Recording? {
      RecordKeeps(s);
    }
  }

  lemma StepKeeps(u: Setup, s: Sys, act: Action)
    requires Inv(s)
    ensures Inv(Step(u, s, act))
  {
    MainStartKeeps(s, act);
    MainReadPendingKeeps(s);
    MainReadActiveKeeps(s);
    if act.Finish? { MainFinishKeeps(u, s, act.fault); }
    WorkerKeeps(s, act);
  }

  lemma {:induction false} EveryInterleaving(u: Setup, s: Sys, acts: seq<Action>)
    requires Inv(s)
    ensures Inv(Run(u, s, acts))
  {
    if acts != [] {
      EveryInterleaving(u, s, acts[..|acts| - 1]);
      StepKeeps(u, Run(u, s, acts[..|acts| - 1]), acts[|acts| - 1]);
    }
  }

  // ---- what follows for the running daemon -----------------------------------------------------------

  lemma RetuningIsQuiet(u: Setup, s: Sys, act: Action)
    requires Inv(s) && act.Finish?
    ensures Tuned(Step(u, s, act).pipe) != Tuned(s.pipe) ==> Quiet(s)
  {
    if s.main.ConfApply? && !TouchesRadio(s.main.line) {
      UntouchedRadio(u, s.pipe, s.main.line, act.fault);
    }
  }

  lemma OnlyFinishRetunes(u: Setup, s: Sys, act: Action)
    requires !act.Finish?
    ensures Step(u, s, act).pipe == s.pipe
  {
  }

  /** No driver setter and no mode switch runs through the dispatcher while a job is queued or
      executing, whatever it would set; so each job is transmitted under the tuning it was
      accepted under. */
  lemma ConfigFrozenUnderJobs(u: Setup, p: Pipe, acts: seq<Action>, act: Action, fault: Option<nat>)
    ensures var s := Run(u, Started(p), acts);
            && (s.main.ConfApply? && DriverCalls(u, s.pipe, s.main.line, fault) > 0 ==> Quiet(s))
            && (Tuned(Step(u, s, act).pipe) != Tuned(s.pipe) ==> Quiet(s))
            && (s.thread.Executing? ==> s.thread.tuned == Tuned(s.pipe))
  {
    EveryInterleaving(u, Started(p), acts);
    var s := Run(u, Started(p), acts);
    if s.main.ConfApply? && !TouchesRadio(s.main.line) {
      UntouchedRadio(u, s.pipe, s.main.line, fault);
    }
    if act.Finish? {
      RetuningIsQuiet(u, s, act);
    } else {
      OnlyFinishRetunes(u, s, act);
    }
  }

  lemma SwitchingOffIsQuiet(u: Setup, s: Sys, act: Action)
    requires Inv(s) && s.queueOn && !Step(u, s, act).queueOn
    ensures Quiet(s)
  {
  }

  /** TXQUEUE=0 is accepted only when no job is left, and a direct send never overlaps one. */
  lemma DirectSendAlone(u: Setup, p: Pipe, acts: seq<Action>, act: Action)
    ensures var s := Run(u, Started(p), acts);
            && (s.main == Sending ==> Quiet(s))
            && (s.queueOn && !Step(u, s, act).queueOn ==> Quiet(s))
  {
    EveryInterleaving(u, Started(p), acts);
    var s := Run(u, Started(p), acts);
    if s.queueOn && !Step(u, s, act).queueOn {
      SwitchingOffIsQuiet(u, s, act);
    }
  }

  lemma DoneIsPrefix(s: Sys)
    requires InOrder(s)
    ensures s.jobs.done <= s.jobs.accepted
    ensures forall i | 0 <= i < |s.jobs.done| :: Answers(s.jobs.results[i], s.jobs.accepted[i])
  {
    var rest := InFlight(s.thread) + s.jobs.discarded + s.a.queue;
    assert s.jobs.accepted == s.jobs.done + rest;
  }

  /** No job is lost or answered twice, and results come in the order of acceptance. */
  lemma JobsConserved(u: Setup, p: Pipe, acts: seq<Action>)
    ensures var s := Run(u, Started(p), acts);
            && s.a.n.accepted == s.a.n.processed + |InFlight(s.thread)| + |s.a.queue| + s.a.n.dropped
            && |InFlight(s.thread)| <= 1
            && s.jobs.done <= s.jobs.accepted
            && |s.jobs.results| == |s.jobs.done|
            && (forall i | 0 <= i < |s.jobs.done| :: Answers(s.jobs.results[i], s.jobs.accepted[i]))
  {
    EveryInterleaving(u, Started(p), acts);
    DoneIsPrefix(Run(u, Started(p), acts));
  }

  /** After stop and join, what was accepted is what was processed and then what was
      discarded. */
  lemma StoppedLedger(u: Setup, p: Pipe, acts: seq<Action>)
    ensures var s := Run(u, Started(p), acts);
            s.a.stop && s.thread == NoThread ==> s.jobs.accepted == s.jobs.done + s.jobs.discarded
  {
    EveryInterleaving(u, Started(p), acts);
    var s := Run(u, Started(p), acts);
    assert s.jobs.done + [] + s.jobs.discarded + [] == s.jobs.done + s.jobs.discarded;
  }

  // ---- what is accepted is served ---------------------------------------------------------------------

  /** A free main loop's submission is accepted if and only if fewer than eight jobs wait and
      no stop has been requested: then it is the last to wait, and otherwise nothing changes
      but the count of rejected ones. */
  lemma SubmitExact(u: Setup, s: Sys, job: Job)
    requires s.main == Free
    ensures var t := Step(u, s, SubmitJob(job));
            if !s.a.stop && |s.a.queue| < 8 then
              t == s.(a := s.a.(queue := s.a.queue + [job], n := s.a.n.(accepted := s.a.n.accepted + 1)),
                      tuned := s.tuned + [Tuned(s.pipe)], jobs := s.jobs.(accepted := s.jobs.accepted + [job]))
            else t == s.(a := s.a.(n := s.a.n.(rejected := s.a.n.rejected + 1)))
  {
  }

  /** A worker that can be started runs, ready to take jobs; one that runs is left alone. */
  lemma StartExact(u: Setup, p: Pipe, acts: seq<Action>, created: bool)
    ensures var s := Run(u, Started(p), acts);
            var t := Step(u, s, StartWorker(created));
            s.main == Free ==>
              if s.thread != NoThread then t == s
              else t.a == s.a.(stop := false, running := created) && t.thread == (if created then AtLock else NoThread)
  {
    EveryInterleaving(u, Started(p), acts);
  }

  /** What a worker's turn adds to the ledger. */
  predicate Served(s: Sys, t: Sys, job: Job, outcome: Outcome, cadTimeout: bool) {
    && t.thread == AtLock && !t.a.active && t.jobs.done == s.jobs.done + [job]
    && t.a.n == s.a.n.(processed := s.a.n.processed + 1)
    && |t.jobs.results| == |s.jobs.results| + 1 && t.a.last == Some(t.jobs.results[|s.jobs.results|])
    && t.jobs.results[|s.jobs.results|].flags == (if job.managed then 1 else 0) + (if job.cadTimeout || cadTimeout then 4 else 0)
    && t.jobs.results[|s.jobs.results|].outcome == outcome && Answers(t.jobs.results[|s.jobs.results|], job)
  }

  /** The worker serves the job that has waited longest: taken, executed, idle again and
      recorded, in four steps. */
  lemma OldestIsServed(u: Setup, p: Pipe, acts: seq<Action>, outcome: Outcome, cadTimeout: bool)
    ensures var s := Run(u, Started(p), acts);
            s.thread == AtLock && s.a.queue != [] ==>
              var taken := Step(u, s, TakeJob);
              var t := Step(u, Step(u, Step(u, taken, Execute(outcome, cadTimeout)), ClearActive), RecordResult);
              && taken.thread.Executing? && taken.thread.job == s.a.queue[0] && taken.a.active
              && t.a.queue == s.a.queue[1..] && Served(s, t, s.a.queue[0], outcome, cadTimeout)
  {
    EveryInterleaving(u, Started(p), acts);
    var s := Run(u, Started(p), acts);
    if s.thread == AtLock && s.a.queue != [] { TurnServes(s, outcome, cadTimeout); }
  }

  lemma TurnServes(s: Sys, outcome: Outcome, cadTimeout: bool)
    requires s.thread == AtLock && s.a.queue != [] && s.tuned != []
    ensures var taken := Worker(s, TakeJob);
            var t := Worker(Worker(Worker(taken, Execute(outcome, cadTimeout)), ClearActive), RecordResult);
            && taken.thread.Executing? && taken.thread.job == s.a.queue[0] && taken.a.active
            && t.a.queue == s.a.queue[1..] && Served(s, t, s.a.queue[0], outcome, cadTimeout)
  {
  }

  /** The worker's next step, with jobs waiting: it is the one that takes the next. */
  predicate NextServing(s: Sys, act: Action) {
    if s.thread == AtLock && s.a.queue != [] then act.TakeJob? else NextStep(s.thread, act)
  }

  function WorkLeft(s: Sys): nat {
    4 * |s.a.queue| + match s.thread case Executing(_, _) => 3 case Executed(_, _) => 2 case Recording(_, _) => 1 case _ => 0
  }

  /** Under any schedule: a step of the worker lowers what is left to do by one, and no step
      of the main loop raises it but a submission. */
  lemma WorkGoesDown(u: Setup, p: Pipe, acts: seq<Action>, act: Action)
    ensures var s := Run(u, Started(p), acts);
            var t := Step(u, s, act);
            && (NextServing(s, act) && WorkLeft(s) > 0 && s.thread != NoThread ==> WorkLeft(t) == WorkLeft(s) - 1)
            && (!act.SubmitJob? ==> WorkLeft(t) <= WorkLeft(s))
            && (act.SubmitJob? ==> WorkLeft(t) <= WorkLeft(s) + 4)
  {
    EveryInterleaving(u, Started(p), acts);
    var s := Run(u, Started(p), acts);
    WorkerWorks(s, act);
    MainAddsNoWork(u, s, act);
    StartAddsWork(s, act);
  }

  lemma WorkerWorks(s: Sys, act: Action)
    requires Frozen(s)
    ensures WorkLeft(Worker(s, act)) <= WorkLeft(s)
    ensures NextServing(s, act) && WorkLeft(s) > 0 && s.thread != NoThread ==> WorkLeft(Worker(s, act)) == WorkLeft(s) - 1
  {
  }

  lemma MainAddsNoWork(u: Setup, s: Sys, act: Action)
    requires s.a.running <==> s.thread != NoThread
    ensures WorkLeft(MainReadPending(s)) == WorkLeft(MainReadActive(s)) == WorkLeft(s)
    ensures act.Finish? ==> WorkLeft(MainFinish(u, s, act.fault)) == WorkLeft(s)
  {
  }

  lemma StartAddsWork(s: Sys, act: Action)
    requires s.a.running <==> s.thread != NoThread
    ensures WorkLeft(MainStart(s, act)) <= WorkLeft(s) + if act.SubmitJob? then 4 else 0
  {
  }

  /** A stop request is heard at once: nothing more is accepted, what waits is discarded and
      counted, and the main loop joins a worker left to finish its job. TXQUEUE=1 just switches
      the queue on. */
  lemma StopExact(u: Setup, s: Sys)
    requires s.main == Free
    ensures var t := Step(u, s, StopWorker);
            && t.main == Joining && t.a.stop && t.a.queue == [] && t.thread == s.thread && t.pipe == s.pipe
            && t.a.n == s.a.n.(dropped := s.a.n.dropped + |s.a.queue|)
            && t.jobs.discarded == s.jobs.discarded + s.a.queue
    ensures Step(u, s, QueueOn) == s.(queueOn := true)
  {
  }

  // ---- joining ends ------------------------------------------------------------------------------------

  /** How many steps the worker still has before it has left its loop, once stopped. */
  function StepsToLeave(t: Thread): nat {
    match t
    case Executing(_, _) => 4
    case Executed(_, _) => 3
    case Recording(_, _) => 2
    case AtLock => 1
    case NoThread => 0
  }

  /** The worker step that is next at that point of its loop. */
  predicate NextStep(t: Thread, act: Action) {
    match t
    case Executing(_, _) => act.Execute?
    case Executed(_, _) => act.ClearActive?
    case Recording(_, _) => act.RecordResult?
    case AtLock => act.ExitLoop?
    case NoThread => false
  }

  /** While the main loop joins, under any schedule: only the worker's next step moves it, and
      takes it nearer to leaving; the main loop is freed exactly once the worker has left. */
  lemma JoinEnds(u: Setup, s: Sys, act: Action)
    requires Inv(s) && s.main == Joining
    ensures var t := Step(u, s, act);
            && (NextStep(s.thread, act) ==> StepsToLeave(t.thread) == StepsToLeave(s.thread) - 1)
            && (!NextStep(s.thread, act) ==> t.thread == s.thread)
            && t.main == (if act.Finish? && s.thread == NoThread then Free else Joining)
            && (t.main == Free ==> !t.a.running && t.a.queue == [])
  {
  }

  function NextSteps(u: Setup, s: Sys, acts: seq<Action>): nat {
    if acts == [] then 0
    else
      var n := |acts| - 1;
      NextSteps(u, s, acts[..n]) + if NextStep(Run(u, s, acts[..n]).thread, acts[n]) then 1 else 0
  }

  /** So the worker has left after its next step was scheduled that many times, however the
      steps of the main loop are mixed in, as long as the main loop has not gone on. */
  lemma {:induction false} JoinEndsUnderAnySchedule(u: Setup, s: Sys, acts: seq<Action>)
    requires Inv(s) && s.main == Joining
    requires forall n | 0 <= n <= |acts| :: Run(u, s, acts[..n]).main == Joining
    ensures StepsToLeave(Run(u, s, acts).thread) + NextSteps(u, s, acts) == StepsToLeave(s.thread) <= 4
  {
    if acts != [] {
      var front := acts[..|acts| - 1];
      forall n | 0 <= n <= |front| ensures Run(u, s, front[..n]).main == Joining {
        assert front[..n] == acts[..n];
      }
      JoinEndsUnderAnySchedule(u, s, front);
      EveryInterleaving(u, s, front);
      assert front[..|front|] == front;
      JoinEnds(u, Run(u, s, front), acts[|acts| - 1]);
    }
  }

  /** Read by a main loop that is not interrupted, the gate is exact: the command is answered
      BUSY, with nothing applied, if and only if it touches the radio and a job waits or the
      worker is active; otherwise it is applied and answered with what that did. */
  lemma GateExact(u: Setup, s: Sys, line: string, fault: Option<nat>)
    requires s.main == Free
    ensures var t := Step(u, Step(u, Step(u, Step(u, s, ConfLine(line)), ReadPending), ReadActive), Finish(fault));
            && t.main == Free
            && (t.reply == Busy <==> TouchesRadio(line) && (s.a.queue != [] || s.a.active))
            && (t.reply == Busy ==> t.pipe == s.pipe)
            && (t.reply != Busy ==> (t.reply, t.pipe) == (Replied(Apply(u, s.pipe, line, fault).0), Apply(u, s.pipe, line, fault).1))
  {
    var s1 := Step(u, s, ConfLine(line));
    if TouchesRadio(line) {
      var s2 := Step(u, s1, ReadPending);
      assert s2.main == ConfActive(line, |s.a.queue|);
    } else {
      assert Step(u, Step(u, s1, ReadPending), ReadActive) == s1;
    }
  }

  /** So is that of TXQUEUE=0: accepted if and only if no job waits and the worker is idle. */
  lemma QueueOffExact(u: Setup, s: Sys, fault: Option<nat>)
    requires s.main == Free && s.queueOn
    ensures var t := Step(u, Step(u, Step(u, Step(u, s, QueueOff), ReadPending), ReadActive), Finish(fault));
            && t.main == Free && t.pipe == s.pipe && t.a == s.a
            && (if s.a.queue == [] && !s.a.active then !t.queueOn && t.reply == Ok else t.queueOn && t.reply == Busy)
  {
    var s2 := Step(u, Step(u, s, QueueOff), ReadPending);
    assert s2.main == OffActive(|s.a.queue|);
  }

  /** And that of a direct send: it goes on if and only if the queue is off, empty and idle;
      with the queue on none is begun. */
  lemma DirectSendExact(u: Setup, s: Sys)
    requires s.main == Free
    ensures var t := Step(u, Step(u, Step(u, s, DirectSend), ReadPending), ReadActive);
            && (t.main == Sending <==> !s.queueOn && s.a.queue == [] && !s.a.active)
            && (t.main != Sending ==> t.main == Free && (!s.queueOn ==> t.reply == Busy) && (s.queueOn ==> t == s))
            && (t.main == Sending ==> Step(u, t, Finish(None)) == t.(main := Free))
  {
    var s2 := Step(u, Step(u, s, DirectSend), ReadPending);
    assert !s.queueOn ==> s2.main == SendActive(|s.a.queue|);
  }

  /** Why `pending` is read first: a job can leave the queue and become active between
      the two reads, so that a clear `job_active` followed by a clear `pending` says nothing. */
  lemma ReadingOrderMatters(u: Setup, p: Pipe, job: Job)
    ensures exists acts: seq<Action> ::
              var s := Run(u, Started(p), acts);
              !s.a.active && Step(u, s, TakeJob).a.queue == [] && Step(u, s, TakeJob).thread.Executing?
  {
    var acts := [StartWorker(true), SubmitJob(job)];
    RunTwo(u, Started(p), acts[0], acts[1]);
    var s := Run(u, Started(p), acts);
    assert s.a.queue == [job] && s.tuned == [Tuned(p)] && s.thread == AtLock;
  }

  lemma RunTwo(u: Setup, s: Sys, a: Action, b: Action)
    ensures Run(u, s, [a, b]) == Step(u, Step(u, s, a), b)
  {
    assert [a, b][..1] == [a] && [a][..0] == [];
    assert Run(u, s, [a]) == Step(u, Run(u, s, []), a);
  }

  // ---- the worker in place ---------------------------------------------------------------------------

  /** What the worker's locked block decides. */
  datatype Next = Wait | Leave | Go(job: Job)

  class AsyncWorker {
    const queue: TxQueue.JobQueue
    var accepted: nat
    var rejected: nat
    var processed: nat
    var running: bool
    var stop: bool
    var active: bool
    var last: Option<JobResult>

    ghost predicate Valid()
      reads this, queue
    {
      queue.Valid()
    }

    ghost function View(): Async
      reads this, queue, queue.jobs
      requires Valid()
    {
      Async(queue.Contents(), Counters(accepted, rejected, processed, queue.dropped), running, stop, active, last)
    }

    constructor (blank: Job)
      ensures Valid() && View() == INIT && fresh(queue) && fresh(queue.jobs)
    {
      queue := new TxQueue.JobQueue(blank);
      accepted, rejected, processed := 0, 0, 0;
      running, stop, active, last := false, false, false, None;
    }

    method SubmitJob(job: Job) returns (ok: bool)
      requires Valid()
      modifies this, queue, queue.jobs
      ensures Valid() && View() == Submit(old(View()), job) && ok == Accepts(old(View()))
    {
      if stop {
        rejected := rejected + 1;
        return false;
      }
      ok := queue.Push(job);
      if ok {
        accepted := accepted + 1;
      } else {
        rejected := rejected + 1;
      }
    }

    /** One pass of the loop's locked block, as far as the condition variable. */
    method TakeNext() returns (next: Next)
      requires Valid()
      modifies this, queue
      ensures Valid()
      ensures var a := old(View());
              if a.queue != [] then next == Go(a.queue[0]) && View() == Take(a)
              else if a.stop then next == Leave && View() == a.(running := false)
              else next == Wait && View() == a
    {
      if !stop && queue.count == 0 {
        return Wait;
      }
      if stop && queue.count == 0 {
        running := false;
        return Leave;
      }
      var job := queue.Pop();
      active := true;
      next := Go(job.value);
    }

    /** Records a result and hands it on as a completion. */
    method RecordIt(r: JobResult, completions: TxCompletion.CompletionQueue)
      requires Valid() && completions.Valid()
      modifies this, completions, completions.entries
      ensures Valid() && View() == Record(old(View()), r)
      ensures completions.Valid() && completions.View() == TxCompletion.PushResult(old(completions.View()), r)
    {
      last := Some(r);
      processed := processed + 1;
      completions.Push(r);
    }

    method Start(created: bool) returns (ok: bool)
      requires Valid()
      modifies this
      ensures Valid() && ok == (old(running) || created)
      ensures View() == if old(running) then old(View()) else old(View()).(stop := false, running := created)
    {
      if running {
        return true;
      }
      stop, running := false, true;
      if !created {
        running := false;
        return false;
      }
      ok := true;
    }

    method Stop(blank: Job)
      requires Valid()
      modifies this, queue, queue.jobs
      ensures Valid() && View() == RequestStop(old(View()))
    {
      stop := true;
      var _ := queue.DiscardAll(blank);
    }
  }
}
