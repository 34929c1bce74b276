/** The dream sweeper: its stored state, its due rule, a job's chain of phases and the
    recorder that writes the state back.  Stamps are integer microseconds. */
module DreamSweeper {
  import opened Common
  import opened DreamLease

  const SECOND: int := 1_000_000

  datatype Config = Config(dreamIntervalSeconds: int, dreamFailureBackoffSeconds: int)

  // ---- stored state ----

  datatype SweepState = SweepState(watermark: nat, completedAt: Option<int>, failedAt: Option<int>)
  datatype Write = Watermark(value: nat) | Completed(at: int) | Failed(at: int)

  const NEVER: SweepState := SweepState(0, None, None)

  type Table = map<Scope, SweepState>

  function Stored(t: Table, scope: Scope): SweepState {
    if scope in t then t[scope] else NEVER
  }

  function Later(old': Option<int>, at: int): Option<int> {
    if old'.None? || at > old'.value then Some(at) else old'
  }

  function Upsert(s: SweepState, w: Write): SweepState {
    match w
    case Watermark(v) => s.(watermark := if v > s.watermark then v else s.watermark)
    case Completed(at) => s.(completedAt := Later(s.completedAt, at))
    case Failed(at) => s.(failedAt := Later(s.failedAt, at))
  }

  /** One write to one scope's row. */
  datatype Entry = Entry(scope: Scope, write: Write)

  function Written(t: Table, e: Entry): Table {
    t[e.scope := Upsert(Stored(t, e.scope), e.write)]
  }

  lemma WrittenTwice(t: Table, e: Entry)
    ensures Written(Written(t, e), e) == Written(t, e)
  {
  }

  function AllWritten(t: Table, log: seq<Entry>): Table {
    if log == [] then t
    else Written(AllWritten(t, log[..|log| - 1]), log[|log| - 1])
  }

  lemma AllWrittenLast(t: Table, log: seq<Entry>, e: Entry)
    ensures AllWritten(t, log + [e]) == Written(AllWritten(t, log), e)
  {
  }

  /** A storage call that answers, fails in a way worth one retry, or fails for good; a
      failed call may have landed all the same. */
  datatype Call = Answers | Retryable(landed: bool) | Fatal(landed: bool)

  predicate Landed(c: Call) {
    c.Answers? || c.landed
  }

  predicate RetryLanded(first: Call, second: Call) {
    Landed(first) || (first.Retryable? && Landed(second))
  }

  predicate RetryAnswered(first: Call, second: Call) {
    first.Answers? || (first.Retryable? && second.Answers?)
  }

  /** The sweep-state table of the control plane. */
  class SweepTable {
    var rows: Table

    constructor ()
      ensures rows == map[]
    {
      rows := map[];
    }

    method DreamSweepState(scope: Scope) returns (s: SweepState)
      ensures s == Stored(rows, scope)
    {
      if scope !in rows {
        return SweepState(0, None, None);
      }
      s := rows[scope];
    }

    method Record(scope: Scope, w: Write)
      modifies this
      ensures rows == Written(old(rows), Entry(scope, w))
    {
      if scope !in rows {
        match w
        case Watermark(v) => rows := rows[scope := SweepState(v, None, None)];
        case Completed(at) => rows := rows[scope := SweepState(0, Some(at), None)];
        case Failed(at) => rows := rows[scope := SweepState(0, None, Some(at))];
        return;
      }
      var row := rows[scope];
      match w
      case Watermark(v) =>
        rows := rows[scope := row.(watermark := MaxInt(row.watermark, v))];
      case Completed(at) =>
        if row.completedAt.None? || at > row.completedAt.value {
          rows := rows[scope := row.(completedAt := Some(at))];
        }
      case Failed(at) =>
        if row.failedAt.None? || at > row.failedAt.value {
          rows := rows[scope := row.(failedAt := Some(at))];
        }
    }

    /** `_record_with_retry`: a write that landed and was repeated leaves what one write leaves. */
    method RecordWithRetry(scope: Scope, w: Write, first: Call, second: Call) returns (ok: bool)
      modifies this
      ensures ok == RetryAnswered(first, second)
      ensures rows == if RetryLanded(first, second) then Written(old(rows), Entry(scope, w)) else old(rows)
      ensures first.Answers? || (first.Retryable? && second.Answers?) ==> ok
      ensures ok || (!first.Answers? && first.landed) ==> rows == Written(old(rows), Entry(scope, w))
      ensures first.Fatal? && !first.landed ==> !ok && rows == old(rows)
    {
      if Landed(first) {
        Record(scope, w);
      }
      if first.Retryable? {
        if Landed(second) {
          WrittenTwice(old(rows), Entry(scope, w));
          Record(scope, w);
        }
        return second.Answers?;
      }
      ok := first.Answers?;
    }
  }

  // ---- the due rule ----

  predicate DreamIsDue(cfg: Config, s: SweepState, now: int) {
    if s.failedAt.Some? && (s.completedAt.None? || s.failedAt.value >= s.completedAt.value) then
      now - s.failedAt.value >= cfg.dreamFailureBackoffSeconds * SECOND
    else if s.completedAt.Some? then
      now - s.completedAt.value >= cfg.dreamIntervalSeconds * SECOND
    else
      true
  }

  /** Of the two stamps the later one governs, and the failure on a tie. */
  ghost predicate CompletionGoverns(s: SweepState, at: int) {
    s.completedAt == Some(at) && (s.failedAt.None? || s.failedAt.value < at)
  }

  ghost predicate FailureGoverns(s: SweepState, at: int) {
    s.failedAt == Some(at) && (s.completedAt.None? || s.completedAt.value <= at)
  }

  /** A completion waits out the interval, a failure the backoff, and a scope never dreamt
      waits for nothing. */
  ghost predicate Waited(cfg: Config, s: SweepState, now: int) {
    && (forall at :: CompletionGoverns(s, at) ==> now - at >= cfg.dreamIntervalSeconds * 1_000_000)
    && (forall at :: FailureGoverns(s, at) ==> now - at >= cfg.dreamFailureBackoffSeconds * 1_000_000)
  }

  lemma DueIffWaited(cfg: Config, s: SweepState, now: int)
    ensures DreamIsDue(cfg, s, now) <==> Waited(cfg, s, now)
  {
    if s.failedAt.Some? && (s.completedAt.None? || s.failedAt.value >= s.completedAt.value) {
      assert FailureGoverns(s, s.failedAt.value);
    } else if s.completedAt.Some? {
      assert CompletionGoverns(s, s.completedAt.value);
    }
  }

  // ---- one job's chain ----

  datatype Phase = Light | Rem | Deep | Summarize

  /** How a phase ends: `workerStarted` and `notStarted` say whether a raising phase touched
      memory, `recorded` whether its error row landed. */
  datatype PhaseEnd =
    | Succeeds
    | Raises(workerStarted: bool, notStarted: bool, recorded: bool)
    | IsCancelled

  datatype JobEnd = Outcome(durablyRecorded: bool, summarizeRan: bool) | JobCancelled | NoOutcome

  /** The phase did run, whether or not it then raised. */
  predicate Ran(e: PhaseEnd) {
    e.Succeeds? || (e.Raises? && e.workerStarted && !e.notStarted)
  }

  /** How many phases are dispatched: up to and including the first that does not succeed. */
  function Dispatched(ends: seq<PhaseEnd>): (n: nat)
    ensures n <= |ends|
    ensures forall i :: 0 <= i < n - 1 ==> ends[i].Succeeds?
    ensures n < |ends| ==> n > 0 && !ends[n - 1].Succeeds?
  {
    if ends == [] then 0
    else if ends[0].Succeeds? then 1 + Dispatched(ends[1..])
    else 1
  }

  ghost predicate SummarizeRan(phases: seq<Phase>, ends: seq<PhaseEnd>)
    requires |phases| == |ends|
  {
    exists i :: 0 <= i < Dispatched(ends) && phases[i].Summarize? && Ran(ends[i])
  }

  /** What the job reports, and that no phase starts after a failed one. */
  ghost predicate ReportsChain(phases: seq<Phase>, ends: seq<PhaseEnd>, dispatched: seq<Phase>, end: JobEnd)
    requires |phases| == |ends|
  {
    var n := Dispatched(ends);
    && dispatched == phases[..n]
    && if n > 0 && ends[n - 1].IsCancelled? then end == JobCancelled
       else
         && end.Outcome?
         && end.durablyRecorded == (n == 0 || ends[n - 1].Succeeds? || ends[n - 1].recorded)
         && end.summarizeRan == SummarizeRan(phases, ends)
  }

  /** The chain reaches phase `i`. */
  ghost predicate Reaches(ends: seq<PhaseEnd>, i: int) {
    0 <= i < |ends| && forall k :: 0 <= k < i ==> ends[k].Succeeds?
  }

  /** SUMMARIZE was reached, and it succeeded or raised with its worker already started. */
  ghost predicate SummarizeStarted(phases: seq<Phase>, ends: seq<PhaseEnd>)
    requires |phases| == |ends|
  {
    exists i :: Reaches(ends, i) && phases[i].Summarize?
                && (ends[i].Succeeds? || (ends[i].Raises? && ends[i].workerStarted && !ends[i].notStarted))
  }

  /** Every phase reached succeeded, or raised and left its error row. */
  ghost predicate AllRecorded(ends: seq<PhaseEnd>) {
    forall i :: Reaches(ends, i) ==> ends[i].Succeeds? || (ends[i].Raises? && ends[i].recorded)
  }

  ghost predicate Cancelled(ends: seq<PhaseEnd>) {
    exists i :: Reaches(ends, i) && ends[i].IsCancelled?
  }

  lemma ReachedIff(ends: seq<PhaseEnd>, i: int)
    ensures Reaches(ends, i) <==> 0 <= i < Dispatched(ends)
  {
    var n := Dispatched(ends);
    if n <= i < |ends| {
      assert !ends[n - 1].Succeeds?;
    }
  }

  /** What the job reports, read off the ends of its phases alone. */
  lemma ReportedBits(phases: seq<Phase>, ends: seq<PhaseEnd>, dispatched: seq<Phase>, end: JobEnd)
    requires |phases| == |ends| && ReportsChain(phases, ends, dispatched, end)
    ensures end == JobCancelled <==> Cancelled(ends)
    ensures !Cancelled(ends) ==> end == Outcome(AllRecorded(ends), SummarizeStarted(phases, ends))
  {
    forall i ensures Reaches(ends, i) <==> 0 <= i < Dispatched(ends) {
      ReachedIff(ends, i);
    }
    var n := Dispatched(ends);
    if n > 0 {
      assert Reaches(ends, n - 1);
      if !ends[n - 1].IsCancelled? {
        assert end.durablyRecorded == AllRecorded(ends);
      }
    }
  }

  method RunSystemDreamJob(phases: seq<Phase>, ends: seq<PhaseEnd>) returns (dispatched: seq<Phase>, end: JobEnd)
    requires |phases| == |ends|
    ensures ReportsChain(phases, ends, dispatched, end)
  {
    var summarizeRan := false;
    dispatched := [];
    for i := 0 to |phases|
      invariant dispatched == phases[..i]
      invariant forall j :: 0 <= j < i ==> ends[j].Succeeds?
      invariant summarizeRan <==> exists j :: 0 <= j < i && phases[j].Summarize? && Ran(ends[j])
    {
      dispatched := dispatched + [phases[i]];
      match ends[i]
      case IsCancelled =>
        DispatchedIs(ends, i + 1);
        return dispatched, JobCancelled;
      case Raises(workerStarted, notStarted, recorded) =>
        DispatchedIs(ends, i + 1);
        if phases[i].Summarize? && workerStarted && !notStarted {
          assert Ran(ends[i]);
          summarizeRan := true;
        }
        return dispatched, Outcome(recorded, summarizeRan);
      case Succeeds =>
        if phases[i].Summarize? {
          assert Ran(ends[i]);
          summarizeRan := true;
        }
    }
    DispatchedIs(ends, |ends|);
    assert phases[..|phases|] == phases;
    end := Outcome(true, summarizeRan);
  }

  lemma {:induction false} DispatchedIs(ends: seq<PhaseEnd>, n: nat)
    requires n <= |ends| && forall i :: 0 <= i < n - 1 ==> ends[i].Succeeds?
    requires n == |ends| || (n > 0 && !ends[n - 1].Succeeds?)
    ensures Dispatched(ends) == n
  {
    if n > 0 && ends[0].Succeeds? {
      DispatchedIs(ends[1..], n - 1);
    }
  }

  // ---- scheduling one scope ----

  const FULL_DREAM_PHASES: seq<Phase> := [Light, Rem, Deep]

  /** The phases a tick schedules for one scope: none, a summarize sweep, or the full chain. */
  function PhasesFor(dreamDue: bool, hasNewMessages: bool, summarize: bool): seq<Phase> {
    if dreamDue then FULL_DREAM_PHASES + if summarize then [Summarize] else []
    else if hasNewMessages && summarize then [Summarize]
    else []
  }

  /** One scope as a tick finds it: the newest message, and how scheduling will go. */
  datatype Found = Found(scope: Scope, watermark: nat, lock: Lock)
  datatype Lock = Free | Held | PortsMissing

  /** A scheduled job and what its recorder is told. */
  datatype Handed = Handed(scope: Scope, phases: seq<Phase>, watermark: Option<nat>, dreamCompleted: bool)

  /** What a tick wants for a scope, whoever holds its lock. */
  function Wanted(cfg: Config, rows: Table, f: Found, now: int, summarize: bool, dreamCapable: bool): Handed {
    var state := Stored(rows, f.scope);
    var due := dreamCapable && DreamIsDue(cfg, state, now);
    var phases := PhasesFor(due, f.watermark > state.watermark, summarize);
    Handed(f.scope, phases, if Summarize in phases then Some(f.watermark) else None, due)
  }

  datatype Report = Report(skippedNoNewMessages: nat, skippedLocked: nat, summarizeScheduled: nat, dreamsScheduled: nat)

  function CountIf(jobs: seq<Handed>, p: Handed -> bool): nat {
    if jobs == [] then 0 else CountIf(jobs[..|jobs| - 1], p) + if p(jobs[|jobs| - 1]) then 1 else 0
  }

  /** The jobs wanted for the scopes whose lock is `lock`, in order. */
  function WantedUnder(cfg: Config, rows: Table, found: seq<Found>, now: int, summarize: bool, dreamCapable: bool,
                       lock: Lock): seq<Handed>
  {
    if found == [] then []
    else
      var last := found[|found| - 1];
      var job := Wanted(cfg, rows, last, now, summarize, dreamCapable);
      WantedUnder(cfg, rows, found[..|found| - 1], now, summarize, dreamCapable, lock)
        + if job.phases != [] && last.lock == lock then [job] else []
  }

  /** The report of the scopes swept so far, and the jobs handed over for them. */
  ghost predicate Swept(cfg: Config, rows: Table, found: seq<Found>, now: int, summarize: bool, dreamCapable: bool,
                        jobs: seq<Handed>, report: Report) {
    && jobs == WantedUnder(cfg, rows, found, now, summarize, dreamCapable, Free)
    && WantedUnder(cfg, rows, found, now, summarize, dreamCapable, PortsMissing) == []
    && report.skippedLocked == |WantedUnder(cfg, rows, found, now, summarize, dreamCapable, Held)|
    && report.dreamsScheduled == CountIf(jobs, (j: Handed) => j.dreamCompleted)
    && report.summarizeScheduled == CountIf(jobs, (j: Handed) => j.watermark.Some?)
  }

  lemma CountLast(jobs: seq<Handed>, job: Handed, p: Handed -> bool)
    ensures CountIf(jobs + [job], p) == CountIf(jobs, p) + if p(job) then 1 else 0
  {
    assert (jobs + [job])[..|jobs|] == jobs;
  }

  lemma WantedLast(cfg: Config, rows: Table, found: seq<Found>, f: Found, now: int, summarize: bool,
                   dreamCapable: bool, lock: Lock)
    ensures var job := Wanted(cfg, rows, f, now, summarize, dreamCapable);
            WantedUnder(cfg, rows, found + [f], now, summarize, dreamCapable, lock) ==
            WantedUnder(cfg, rows, found, now, summarize, dreamCapable, lock)
              + if job.phases != [] && f.lock == lock then [job] else []
  {
    assert (found + [f])[..|found|] == found;
  }

  /** One more scope, unless it is wanted and its ports are missing. */
  lemma SweptOne(cfg: Config, rows: Table, found: seq<Found>, f: Found, now: int, summarize: bool, dreamCapable: bool,
                 jobs: seq<Handed>, report: Report)
    requires Swept(cfg, rows, found, now, summarize, dreamCapable, jobs, report)
    requires Wanted(cfg, rows, f, now, summarize, dreamCapable).phases == [] || !f.lock.PortsMissing?
    ensures var job := Wanted(cfg, rows, f, now, summarize, dreamCapable);
            if job.phases != [] && f.lock.Free? then
              Swept(cfg, rows, found + [f], now, summarize, dreamCapable, jobs + [job], Scheduled(report, job))
            else if job.phases != [] then
              Swept(cfg, rows, found + [f], now, summarize, dreamCapable, jobs,
                    report.(skippedLocked := report.skippedLocked + 1))
            else
              Swept(cfg, rows, found + [f], now, summarize, dreamCapable, jobs, report)
  {
    var job := Wanted(cfg, rows, f, now, summarize, dreamCapable);
    WantedLast(cfg, rows, found, f, now, summarize, dreamCapable, Free);
    WantedLast(cfg, rows, found, f, now, summarize, dreamCapable, Held);
    WantedLast(cfg, rows, found, f, now, summarize, dreamCapable, PortsMissing);
    CountLast(jobs, job, (j: Handed) => j.dreamCompleted);
    CountLast(jobs, job, (j: Handed) => j.watermark.Some?);
  }

  function Scheduled(report: Report, job: Handed): Report {
    report.(summarizeScheduled := report.summarizeScheduled + if job.watermark.Some? then 1 else 0,
            dreamsScheduled := report.dreamsScheduled + if job.dreamCompleted then 1 else 0)
  }

  /** A full chain was handed over for the scope. */
  ghost predicate ChainHanded(jobs: seq<Handed>, scope: Scope, summarize: bool) {
    exists job :: job in jobs && job.scope == scope && job.dreamCompleted
                  && job.phases == [Light, Rem, Deep] + if summarize then [Summarize] else []
  }

  lemma {:induction false} HandedIffWanted(cfg: Config, rows: Table, found: seq<Found>, now: int, summarize: bool,
                                           dreamCapable: bool, lock: Lock, job: Handed)
    ensures job in WantedUnder(cfg, rows, found, now, summarize, dreamCapable, lock) <==>
            exists f :: f in found && f.lock == lock && job.phases != []
                        && job == Wanted(cfg, rows, f, now, summarize, dreamCapable)
  {
    if found != [] {
      SplitLast(found);
      HandedIffWanted(cfg, rows, found[..|found| - 1], now, summarize, dreamCapable, lock, job);
    }
  }

  lemma ChainHandedIff(cfg: Config, rows: Table, found: seq<Found>, now: int, summarize: bool, dreamCapable: bool,
                       f: Found)
    requires f in found && f.lock.Free?
    ensures ChainHanded(WantedUnder(cfg, rows, found, now, summarize, dreamCapable, Free), f.scope, summarize) <==>
            dreamCapable && Waited(cfg, Stored(rows, f.scope), now)
  {
    DueIffWaited(cfg, Stored(rows, f.scope), now);
    var jobs := WantedUnder(cfg, rows, found, now, summarize, dreamCapable, Free);
    var mine := Wanted(cfg, rows, f, now, summarize, dreamCapable);
    HandedIffWanted(cfg, rows, found, now, summarize, dreamCapable, Free, mine);
    if job :| job in jobs && job.scope == f.scope && job.dreamCompleted {
      HandedIffWanted(cfg, rows, found, now, summarize, dreamCapable, Free, job);
    }
  }

  /** Each free scope got its full chain exactly when its wait was over. */
  ghost predicate ChainsWhenDue(cfg: Config, rows: Table, found: seq<Found>, now: int, summarize: bool,
                                dreamCapable: bool, jobs: seq<Handed>) {
    forall f :: f in found && f.lock.Free? ==>
      (ChainHanded(jobs, f.scope, summarize) <==> dreamCapable && Waited(cfg, Stored(rows, f.scope), now))
  }

  lemma ChainsAreHanded(cfg: Config, rows: Table, found: seq<Found>, now: int, summarize: bool, dreamCapable: bool,
                        jobs: seq<Handed>)
    requires jobs == WantedUnder(cfg, rows, found, now, summarize, dreamCapable, Free)
    ensures ChainsWhenDue(cfg, rows, found, now, summarize, dreamCapable, jobs)
  {
    forall f | f in found && f.lock.Free?
      ensures ChainHanded(jobs, f.scope, summarize) <==> dreamCapable && Waited(cfg, Stored(rows, f.scope), now)
    {
      ChainHandedIff(cfg, rows, found, now, summarize, dreamCapable, f);
    }
  }

  /** The decision for one scope. */
  method Decide(cfg: Config, table: SweepTable, f: Found, now: int, summarize: bool, dreamCapable: bool)
    returns (job: Handed)
    ensures job == Wanted(cfg, table.rows, f, now, summarize, dreamCapable)
    ensures job.dreamCompleted <==> dreamCapable && Waited(cfg, Stored(table.rows, f.scope), now)
    ensures job.phases ==
            if job.dreamCompleted then [Light, Rem, Deep] + if summarize then [Summarize] else []
            else if summarize && f.watermark > Stored(table.rows, f.scope).watermark then [Summarize]
            else []
    ensures job.watermark == if summarize && job.phases != [] then Some(f.watermark) else None
  {
    DueIffWaited(cfg, Stored(table.rows, f.scope), now);
    var state := table.DreamSweepState(f.scope);
    var due := dreamCapable && DreamIsDue(cfg, state, now);
    var phases: seq<Phase> := [];
    if due {
      phases := FULL_DREAM_PHASES + if summarize then [Summarize] else [];
    } else if f.watermark > state.watermark && summarize {
      phases := [Summarize];
    }
    job := Handed(f.scope, phases, if Summarize in phases then Some(f.watermark) else None, due);
  }

  /** `_sweep_tenant`: exactly the wanted jobs of the free scopes are handed over, up to the
      first wanted scope whose ports are missing, and the report counts them. */
  method SweepTenant(cfg: Config, table: SweepTable, found: seq<Found>, now: int, summarize: bool, dreamCapable: bool)
    returns (jobs: seq<Handed>, report: Report, visited: nat)
    ensures visited <= |found|
    ensures Swept(cfg, table.rows, found[..visited], now, summarize, dreamCapable, jobs, report)
    ensures visited < |found| ==>
              && found[visited].lock.PortsMissing?
              && Wanted(cfg, table.rows, found[visited], now, summarize, dreamCapable).phases != []
    ensures report.skippedNoNewMessages ==
            if visited == |found| && jobs == [] && report.skippedLocked == 0 then 1 else 0
    ensures ChainsWhenDue(cfg, table.rows, found[..visited], now, summarize, dreamCapable, jobs)
  {
    jobs, report, visited := [], Report(0, 0, 0, 0), 0;
    while visited < |found|
      invariant visited <= |found| && report.skippedNoNewMessages == 0
      invariant Swept(cfg, table.rows, found[..visited], now, summarize, dreamCapable, jobs, report)
    {
      var f := found[visited];
      assert found[..visited + 1] == found[..visited] + [f];
      var job := Decide(cfg, table, f, now, summarize, dreamCapable);
      if job.phases != [] && f.lock.PortsMissing? {
        break;
      }
      SweptOne(cfg, table.rows, found[..visited], f, now, summarize, dreamCapable, jobs, report);
      if job.phases != [] {
        if f.lock.Held? {
          report := report.(skippedLocked := report.skippedLocked + 1);
        } else {
          jobs := jobs + [job];
          report := Scheduled(report, job);
        }
      }
      visited := visited + 1;
    }
    ChainsAreHanded(cfg, table.rows, found[..visited], now, summarize, dreamCapable, jobs);
    if visited == |found| && jobs == [] && report.skippedLocked == 0 {
      report := report.(skippedNoNewMessages := 1);
    }
  }

  // ---- the recorder ----

  /** The writes a recorder may issue for a finished job, under any faults. */
  function PossibleWrites(end: JobEnd, watermark: Option<nat>, dreamCompleted: bool, finishedAt: int): set<Write> {
    if end.JobCancelled? then {}
    else
      (if watermark.Some? && end.Outcome? && end.summarizeRan then {Watermark(watermark.value)} else {}) +
      (if dreamCompleted && end.Outcome? && end.durablyRecorded then {Completed(finishedAt)} else {}) +
      (if dreamCompleted then {Failed(finishedAt)} else {})
  }

  /** One retried write of the recorder, appended to what has landed if it did. */
  method RecordOne(table: SweepTable, scope: Scope, w: Write, first: Call, second: Call,
                   ghost start: Table, landed: seq<Entry>)
    returns (ok: bool, landed': seq<Entry>)
    requires table.rows == AllWritten(start, landed)
    modifies table
    ensures table.rows == AllWritten(start, landed')
    ensures ok == RetryAnswered(first, second)
    ensures forall x :: x in landed' <==> x in landed || (x == Entry(scope, w) && RetryLanded(first, second))
  {
    ok := table.RecordWithRetry(scope, w, first, second);
    landed' := landed;
    if RetryLanded(first, second) {
      AllWrittenLast(start, landed, Entry(scope, w));
      landed' := landed + [Entry(scope, w)];
    }
  }

  /** The dream stamp: the completion stamp if the chain was durably recorded, and the
      failure stamp if it was not or if the completion write failed. */
  method RecordStamp(table: SweepTable, scope: Scope, durablyRecorded: bool, finishedAt: int, calls: seq<Call>,
                     ghost start: Table, landed: seq<Entry>)
    returns (failures: nat, landed': seq<Entry>)
    requires |calls| == 4
    requires table.rows == AllWritten(start, landed)
    modifies table
    ensures table.rows == AllWritten(start, landed')
    ensures forall e :: e in landed ==> e in landed'
    ensures forall e :: e in landed' ==>
              || e in landed
              || e == Entry(scope, Failed(finishedAt))
              || (durablyRecorded && e == Entry(scope, Completed(finishedAt)))
    ensures failures == 0 ==>
              Entry(scope, if durablyRecorded then Completed(finishedAt) else Failed(finishedAt)) in landed'
    ensures RetryAnswered(calls[2], calls[3]) ==>
              Entry(scope, Completed(finishedAt)) in landed' || Entry(scope, Failed(finishedAt)) in landed'
  {
    failures, landed' := 0, landed;
    var stampFailure := !durablyRecorded;
    if durablyRecorded {
      var ok;
      ok, landed' := RecordOne(table, scope, Completed(finishedAt), calls[0], calls[1], start, landed');
      if !ok {
        failures := failures + 1;
        stampFailure := true;
      }
    }
    if stampFailure {
      var ok;
      ok, landed' := RecordOne(table, scope, Failed(finishedAt), calls[2], calls[3], start, landed');
      if !ok {
        failures := failures + 1;
      }
    }
  }

  /** `_await_and_record`: `finishedAt` is the job's own terminal time, or the recorder's
      clock when the job reported no outcome; `landed` lists the writes that took effect. */
  method AwaitAndRecord(table: SweepTable, scope: Scope, end: JobEnd, watermark: Option<nat>,
                        dreamCompleted: bool, finishedAt: int, calls: seq<Call>)
    returns (failures: nat, landed: seq<Entry>)
    requires |calls| == 6
    modifies table
    ensures table.rows == AllWritten(old(table.rows), landed)
    ensures forall e :: e in landed ==>
              e.scope == scope && e.write in PossibleWrites(end, watermark, dreamCompleted, finishedAt)
    ensures failures == 0 && !end.JobCancelled? ==>
              && end.Outcome?
              && (watermark.Some? && end.summarizeRan ==> Entry(scope, Watermark(watermark.value)) in landed)
              && (dreamCompleted ==>
                    Entry(scope, if end.durablyRecorded then Completed(finishedAt) else Failed(finishedAt)) in landed)
    ensures dreamCompleted && !end.JobCancelled? && RetryAnswered(calls[4], calls[5]) ==>
              Entry(scope, Completed(finishedAt)) in landed || Entry(scope, Failed(finishedAt)) in landed
  {
    failures, landed := 0, [];
    if end.JobCancelled? {
      return;
    }
    ghost var start := table.rows;
    var durablyRecorded, summarizeRan := false, false;
    if end.Outcome? {
      durablyRecorded, summarizeRan := end.durablyRecorded, end.summarizeRan;
    } else {
      failures := failures + 1;
    }
    if watermark.Some? && summarizeRan {
      var ok;
      ok, landed := RecordOne(table, scope, Watermark(watermark.value), calls[0], calls[1], start, landed);
      if !ok {
        failures := failures + 1;
      }
    }
    if dreamCompleted {
      var failed, stamped := RecordStamp(table, scope, durablyRecorded, finishedAt, calls[2..], start, landed);
      failures, landed := failures + failed, stamped;
    }
  }
}
