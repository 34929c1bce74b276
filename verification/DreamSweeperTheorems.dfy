/** What the stored sweep state means, over every run of containers, jobs and recorders. */
module DreamSweeperTheorems {
  import opened Common
  import DreamLease
  import opened DreamSweeper

  type Scope = DreamLease.Scope

  // ---- the table forgets the order and the repetition of its writes ----

  ghost predicate AtLeast(a: Option<int>, b: Option<int>) {
    b.None? || (a.Some? && a.value >= b.value)
  }

  /** What one write asks of the row. */
  ghost predicate Covers(s: SweepState, w: Write) {
    match w
    case Watermark(v) => s.watermark >= v
    case Completed(at) => AtLeast(s.completedAt, Some(at))
    case Failed(at) => AtLeast(s.failedAt, Some(at))
  }

  /** The row is the least upper bound of where it started and what was written to it. */
  ghost predicate LeastRow(s: SweepState, base: SweepState, scope: Scope, log: seq<Entry>) {
    && s.watermark >= base.watermark
    && AtLeast(s.completedAt, base.completedAt)
    && AtLeast(s.failedAt, base.failedAt)
    && (forall e :: e in log && e.scope == scope ==> Covers(s, e.write))
    && (s.watermark == base.watermark || Entry(scope, Watermark(s.watermark)) in log)
    && (s.completedAt == base.completedAt ||
        (s.completedAt.Some? && Entry(scope, Completed(s.completedAt.value)) in log))
    && (s.failedAt == base.failedAt ||
        (s.failedAt.Some? && Entry(scope, Failed(s.failedAt.value)) in log))
  }

  function Scopes(log: seq<Entry>): set<Scope> {
    set e | e in log :: e.scope
  }

  lemma {:induction false} RowIsLeast(t: Table, log: seq<Entry>, scope: Scope)
    ensures LeastRow(Stored(AllWritten(t, log), scope), Stored(t, scope), scope, log)
    ensures scope in AllWritten(t, log) <==> scope in t || scope in Scopes(log)
  {
    if log != [] {
      var init, last := log[..|log| - 1], log[|log| - 1];
      SplitLast(log);
      RowIsLeast(t, init, scope);
      LeastAfter(Stored(AllWritten(t, init), scope), Stored(t, scope), scope, init, last);
    }
  }

  lemma LeastAfter(s: SweepState, base: SweepState, scope: Scope, log: seq<Entry>, e: Entry)
    requires LeastRow(s, base, scope, log)
    ensures LeastRow(if e.scope == scope then Upsert(s, e.write) else s, base, scope, log + [e])
  {
  }

  lemma LeastIsUnique(s: SweepState, s': SweepState, base: SweepState, scope: Scope, log: seq<Entry>, log': seq<Entry>)
    requires LeastRow(s, base, scope, log) && LeastRow(s', base, scope, log')
    requires forall e :: e in log <==> e in log'
    ensures s == s'
  {
  }

  /** Recorders may interleave, run late and repeat themselves: the table depends only on
      which writes landed. */
  lemma OrderAndRepetitionDoNotMatter(t: Table, log: seq<Entry>, log': seq<Entry>)
    requires forall e :: e in log <==> e in log'
    ensures AllWritten(t, log) == AllWritten(t, log')
  {
    var a, b := AllWritten(t, log), AllWritten(t, log');
    forall k ensures (k in a <==> k in b) && Stored(a, k) == Stored(b, k) {
      RowIsLeast(t, log, k);
      RowIsLeast(t, log', k);
      LeastIsUnique(Stored(a, k), Stored(b, k), Stored(t, k), k, log, log');
    }
    assert forall k :: k in a ==> a[k] == Stored(a, k) && b[k] == Stored(b, k);
  }

  // ---- the due rule ----

  function ShortestWait(cfg: Config): int {
    SECOND * MinInt(cfg.dreamIntervalSeconds, cfg.dreamFailureBackoffSeconds)
  }

  function LongestWait(cfg: Config): int {
    SECOND * MaxInt(cfg.dreamIntervalSeconds, cfg.dreamFailureBackoffSeconds)
  }

  /** Due means every stamp is at least the shorter wait old, and stamps all older than the
      longer wait mean due; a scope with no stamp is due at once. */
  lemma {:induction false} DueWindow(cfg: Config, s: SweepState, now: int)
    ensures DreamIsDue(cfg, s, now) ==>
              && (s.completedAt.Some? ==> now - s.completedAt.value >= ShortestWait(cfg))
              && (s.failedAt.Some? ==> now - s.failedAt.value >= ShortestWait(cfg))
    ensures && (s.completedAt.Some? ==> now - s.completedAt.value >= LongestWait(cfg))
            && (s.failedAt.Some? ==> now - s.failedAt.value >= LongestWait(cfg))
            ==> DreamIsDue(cfg, s, now)
  {
    var i, b := cfg.dreamIntervalSeconds * SECOND, cfg.dreamFailureBackoffSeconds * SECOND;
    assert ShortestWait(cfg) == MinInt(i, b) && LongestWait(cfg) == MaxInt(i, b);
  }

  // ---- every run ----

  /** A container's view of a scope during one tick: its clock at the start of the tick, the
      newest message it saw, and the state it read after `seen` writes had landed. */
  datatype View = View(scope: Scope, tickNow: int, watermark: nat, state: SweepState, seen: nat)

  datatype Job = Job(view: View, dreamDue: bool, phases: seq<Phase>, ends: seq<PhaseEnd>, end: Option<JobEnd>,
                     finishedAt: int)

  datatype Sys = Sys(now: int, table: Table, log: seq<Entry>, views: map<nat, View>, jobs: map<nat, Job>)

  datatype Action =
    | Elapse(delta: nat)
    | Read(id: nat, scope: Scope, tickNow: int, watermark: nat)
    | Schedule(id: nat, job: nat, summarize: bool, dreamCapable: bool)
    | End(job: nat, ends: seq<PhaseEnd>, end: JobEnd)
    | Land(job: nat, write: Write)

  function Init(now: int): Sys {
    Sys(now, map[], [], map[], map[])
  }

  ghost predicate Enabled(cfg: Config, s: Sys, a: Action) {
    match a
    case Elapse(_) => true
    case Read(id, _, tickNow, _) => tickNow <= s.now
    case Schedule(id, job, summarize, dreamCapable) => id in s.views && job !in s.jobs
    case End(job, ends, end) =>
      && job in s.jobs && s.jobs[job].end.None? && |ends| == |s.jobs[job].phases|
      && (end.NoOutcome? || ReportsChain(s.jobs[job].phases, ends, s.jobs[job].phases[..Dispatched(ends)], end))
    case Land(job, write) =>
      && job in s.jobs && s.jobs[job].end.Some?
      && write in PossibleWrites(s.jobs[job].end.value, JobWatermark(s.jobs[job]), s.jobs[job].dreamDue,
                                 s.jobs[job].finishedAt)
  }

  /** The watermark handed to the recorder, if the job was to summarize at all. */
  function JobWatermark(job: Job): Option<nat> {
    if Summarize in job.phases then Some(job.view.watermark) else None
  }

  function ScheduleStep(cfg: Config, s: Sys, v: View, job: nat, summarize: bool, dreamCapable: bool): Sys {
    var due := dreamCapable && DreamIsDue(cfg, v.state, v.tickNow);
    var phases := PhasesFor(due, v.watermark > v.state.watermark, summarize);
    if phases == [] then s
    else s.(jobs := s.jobs[job := Job(v, due, phases, [], None, 0)])
  }

  ghost function Step(cfg: Config, s: Sys, a: Action): Sys {
    if !Enabled(cfg, s, a) then s
    else match a
      case Elapse(delta) => s.(now := s.now + delta)
      case Read(id, scope, tickNow, watermark) =>
        s.(views := s.views[id := View(scope, tickNow, watermark, Stored(s.table, scope), |s.log|)])
      case Schedule(id, job, summarize, dreamCapable) =>
        ScheduleStep(cfg, s, s.views[id], job, summarize, dreamCapable)
      case End(job, ends, end) =>
        s.(jobs := s.jobs[job := s.jobs[job].(ends := ends, end := Some(end), finishedAt := s.now)])
      case Land(job, write) =>
        var e := Entry(s.jobs[job].view.scope, write);
        s.(table := Written(s.table, e), log := s.log + [e])
  }

  ghost function Run(cfg: Config, s: Sys, actions: seq<Action>): Sys {
    if actions == [] then s
    else Step(cfg, Run(cfg, s, actions[..|actions| - 1]), actions[|actions| - 1])
  }

  /** This job's chain reached SUMMARIZE with every phase before it succeeding, and SUMMARIZE
      succeeded or raised after its worker had started. */
  ghost predicate Summarized(job: Job) {
    job.end.Some? && |job.ends| == |job.phases| && SummarizeStarted(job.phases, job.ends)
  }

  ghost predicate SummarizedUpTo(jobs: map<nat, Job>, j: nat, scope: Scope, watermark: nat) {
    j in jobs && jobs[j].view.scope == scope && jobs[j].view.watermark == watermark && Summarized(jobs[j])
  }

  /** Every phase succeeded, or the first that did not left its error row. */
  ghost predicate DurablyRecorded(job: Job) {
    job.end.Some? && |job.ends| == |job.phases| && AllRecorded(job.ends)
  }

  /** A full chain that ended at `at`, was recorded for good, or at least was not cancelled. */
  ghost predicate CompletedAt(jobs: map<nat, Job>, j: nat, scope: Scope, at: int) {
    j in jobs && jobs[j].view.scope == scope && jobs[j].dreamDue && jobs[j].finishedAt == at && DurablyRecorded(jobs[j])
  }

  ghost predicate EndedAt(jobs: map<nat, Job>, j: nat, scope: Scope, at: int) {
    && j in jobs && jobs[j].view.scope == scope && jobs[j].dreamDue && jobs[j].finishedAt == at
    && jobs[j].end.Some? && !jobs[j].end.value.JobCancelled?
  }

  ghost predicate EntryOk(jobs: map<nat, Job>, e: Entry) {
    match e.write
    case Watermark(v) => exists j :: SummarizedUpTo(jobs, j, e.scope, v)
    case Completed(at) => exists j :: CompletedAt(jobs, j, e.scope, at)
    case Failed(at) => exists j :: EndedAt(jobs, j, e.scope, at)
  }

  ghost predicate IsStamp(e: Entry, scope: Scope, at: int) {
    e == Entry(scope, Completed(at)) || e == Entry(scope, Failed(at))
  }

  ghost predicate ViewOk(s: Sys, v: View) {
    && v.seen <= |s.log|
    && v.state == Stored(AllWritten(map[], s.log[..v.seen]), v.scope)
    && v.tickNow <= s.now
  }

  ghost predicate JobOk(cfg: Config, s: Sys, job: Job) {
    && ViewOk(s, job.view)
    && (job.dreamDue ==> DreamIsDue(cfg, job.view.state, job.view.tickNow))
    && (job.end.Some? ==>
          && |job.ends| == |job.phases|
          && (job.end.value.NoOutcome? ||
              ReportsChain(job.phases, job.ends, job.phases[..Dispatched(job.ends)], job.end.value)))
  }

  ghost predicate Inv(cfg: Config, s: Sys) {
    && s.table == AllWritten(map[], s.log)
    && (forall e :: e in s.log ==> EntryOk(s.jobs, e))
    && (forall v :: v in s.views ==> ViewOk(s, s.views[v]))
    && (forall j :: j in s.jobs ==> JobOk(cfg, s, s.jobs[j]))
  }

  /** Writes that land and jobs that end leave every view and every scheduled job sound. */
  lemma GrownLogInv(cfg: Config, s: Sys, s': Sys)
    requires Inv(cfg, s) && s'.jobs == s.jobs && s'.views == s.views && s'.now >= s.now && s.log <= s'.log
    ensures forall v :: v in s'.views ==> ViewOk(s', s'.views[v])
    ensures forall j :: j in s'.jobs ==> JobOk(cfg, s', s'.jobs[j])
  {
    forall v: View | ViewOk(s, v) ensures ViewOk(s', v) {
      assert s'.log[..v.seen] == s.log[..v.seen];
    }
    forall j | j in s'.jobs ensures JobOk(cfg, s', s'.jobs[j]) {
      assert JobOk(cfg, s, s.jobs[j]);
    }
  }

  /** Finished jobs stay as they are, so what was summarized stays summarized. */
  lemma EntriesStay(log: seq<Entry>, jobs: map<nat, Job>, jobs': map<nat, Job>)
    requires forall e :: e in log ==> EntryOk(jobs, e)
    requires forall j :: j in jobs && jobs[j].end.Some? ==> j in jobs' && jobs'[j] == jobs[j]
    ensures forall e :: e in log ==> EntryOk(jobs', e)
  {
    forall e | e in log ensures EntryOk(jobs', e) {
      assert EntryOk(jobs, e);
      match e.write
      case Watermark(v) =>
        var j :| SummarizedUpTo(jobs, j, e.scope, v);
        assert SummarizedUpTo(jobs', j, e.scope, v);
      case Completed(at) =>
        var j :| CompletedAt(jobs, j, e.scope, at);
        assert CompletedAt(jobs', j, e.scope, at);
      case Failed(at) =>
        var j :| EndedAt(jobs, j, e.scope, at);
        assert EndedAt(jobs', j, e.scope, at);
    }
  }

  /** A write only ever lands for a job whose chain earned it. */
  lemma LandedEntryOk(cfg: Config, s: Sys, job: nat, write: Write)
    requires Inv(cfg, s) && Enabled(cfg, s, Land(job, write))
    ensures EntryOk(s.jobs, Entry(s.jobs[job].view.scope, write))
  {
    var j := s.jobs[job];
    assert JobOk(cfg, s, j);
    if j.end.value.Outcome? {
      ReportedBits(j.phases, j.ends, j.phases[..Dispatched(j.ends)], j.end.value);
    }
    match write
    case Watermark(v) => assert SummarizedUpTo(s.jobs, job, j.view.scope, v);
    case Completed(at) => assert CompletedAt(s.jobs, job, j.view.scope, at);
    case Failed(at) => assert EndedAt(s.jobs, job, j.view.scope, at);
  }

  lemma LandInv(cfg: Config, s: Sys, job: nat, write: Write)
    requires Inv(cfg, s) && Enabled(cfg, s, Land(job, write))
    ensures Inv(cfg, Step(cfg, s, Land(job, write)))
  {
    var s', e := Step(cfg, s, Land(job, write)), Entry(s.jobs[job].view.scope, write);
    GrownLogInv(cfg, s, s');
    AllWrittenLast(map[], s.log, e);
    LandedEntryOk(cfg, s, job, write);
  }

  lemma EndInv(cfg: Config, s: Sys, job: nat, ends: seq<PhaseEnd>, end: JobEnd)
    requires Inv(cfg, s) && Enabled(cfg, s, End(job, ends, end))
    ensures Inv(cfg, Step(cfg, s, End(job, ends, end)))
  {
    var s' := Step(cfg, s, End(job, ends, end));
    EntriesStay(s.log, s.jobs, s'.jobs);
    forall v: View | ViewOk(s, v) ensures ViewOk(s', v) {
    }
    forall j | j in s'.jobs ensures JobOk(cfg, s', s'.jobs[j]) {
      assert JobOk(cfg, s, s.jobs[j]);
    }
  }

  lemma ReadInv(cfg: Config, s: Sys, id: nat, scope: Scope, tickNow: int, watermark: nat)
    requires Inv(cfg, s) && tickNow <= s.now
    ensures Inv(cfg, Step(cfg, s, Read(id, scope, tickNow, watermark)))
  {
    var s' := Step(cfg, s, Read(id, scope, tickNow, watermark));
    assert s.log[..|s.log|] == s.log;
    forall j | j in s'.jobs ensures JobOk(cfg, s', s'.jobs[j]) {
      assert JobOk(cfg, s, s.jobs[j]);
    }
  }

  lemma ScheduleInv(cfg: Config, s: Sys, id: nat, job: nat, summarize: bool, dreamCapable: bool)
    requires Inv(cfg, s) && id in s.views && job !in s.jobs
    ensures Inv(cfg, ScheduleStep(cfg, s, s.views[id], job, summarize, dreamCapable))
  {
    var s' := ScheduleStep(cfg, s, s.views[id], job, summarize, dreamCapable);
    EntriesStay(s.log, s.jobs, s'.jobs);
    forall v: View | ViewOk(s, v) ensures ViewOk(s', v) {
    }
    forall j | j in s'.jobs ensures JobOk(cfg, s', s'.jobs[j]) {
      assert j in s.jobs ==> JobOk(cfg, s, s.jobs[j]);
    }
  }

  lemma StepInv(cfg: Config, s: Sys, a: Action)
    requires Inv(cfg, s)
    ensures Inv(cfg, Step(cfg, s, a))
  {
    if Enabled(cfg, s, a) {
      match a
      case Elapse(delta) =>
        GrownLogInv(cfg, s, s.(now := s.now + delta));
      case Read(id, scope, tickNow, watermark) => ReadInv(cfg, s, id, scope, tickNow, watermark);
      case Schedule(id, job, summarize, dreamCapable) => ScheduleInv(cfg, s, id, job, summarize, dreamCapable);
      case End(job, ends, end) => EndInv(cfg, s, job, ends, end);
      case Land(job, write) => LandInv(cfg, s, job, write);
    }
  }

  lemma {:induction false} RunInv(cfg: Config, s: Sys, actions: seq<Action>)
    requires Inv(cfg, s)
    ensures Inv(cfg, Run(cfg, s, actions))
  {
    if actions != [] {
      RunInv(cfg, s, actions[..|actions| - 1]);
      StepInv(cfg, Run(cfg, s, actions[..|actions| - 1]), actions[|actions| - 1]);
    }
  }

  // ---- the theorems ----

  /** In every reachable state a stored watermark is the initial one or that of a finished
      job whose chain really started SUMMARIZE: no message is marked summarized by a chain
      that failed earlier, was cancelled, or reported nothing. */
  lemma WatermarkWasSummarized(cfg: Config, start: int, actions: seq<Action>, scope: Scope)
    ensures var s := Run(cfg, Init(start), actions);
            var w := Stored(s.table, scope).watermark;
            w == 0 || exists j :: SummarizedUpTo(s.jobs, j, scope, w)
  {
    RunInv(cfg, Init(start), actions);
    var s := Run(cfg, Init(start), actions);
    RowIsLeast(map[], s.log, scope);
    var e := Entry(scope, Watermark(Stored(s.table, scope).watermark));
    if e in s.log {
      assert EntryOk(s.jobs, e);
    }
  }

  /** And a stored completion stamp is the end of a full chain that was recorded for good; a
      stored failure stamp the end of one that was not cancelled. */
  lemma StampsAreEarned(cfg: Config, start: int, actions: seq<Action>, scope: Scope)
    ensures var s := Run(cfg, Init(start), actions);
            var row := Stored(s.table, scope);
            && (row.completedAt.Some? ==> exists j :: CompletedAt(s.jobs, j, scope, row.completedAt.value))
            && (row.failedAt.Some? ==> exists j :: EndedAt(s.jobs, j, scope, row.failedAt.value))
  {
    RunInv(cfg, Init(start), actions);
    var s := Run(cfg, Init(start), actions);
    var row := Stored(s.table, scope);
    RowIsLeast(map[], s.log, scope);
    if row.completedAt.Some? {
      assert EntryOk(s.jobs, Entry(scope, Completed(row.completedAt.value)));
    }
    if row.failedAt.Some? {
      assert EntryOk(s.jobs, Entry(scope, Failed(row.failedAt.value)));
    }
  }

  /** The time stamped is the job's own end, however late its recorder writes it. */
  lemma StampIsTheEnd(cfg: Config, s: Sys, job: nat, ends: seq<PhaseEnd>, end: JobEnd, after: seq<Action>)
    requires Enabled(cfg, s, End(job, ends, end))
    ensures var s' := Run(cfg, Step(cfg, s, End(job, ends, end)), after);
            job in s'.jobs && s'.jobs[job].end == Some(end) && s'.jobs[job].finishedAt == s.now
            && s'.jobs[job].ends == ends
  {
    FinishedStays(cfg, Step(cfg, s, End(job, ends, end)), after, job);
  }

  lemma {:induction false} FinishedStays(cfg: Config, s: Sys, actions: seq<Action>, job: nat)
    requires job in s.jobs && s.jobs[job].end.Some?
    ensures job in Run(cfg, s, actions).jobs && Run(cfg, s, actions).jobs[job] == s.jobs[job]
  {
    if actions != [] {
      FinishedStays(cfg, s, actions[..|actions| - 1], job);
    }
  }

  // ---- which wait governs ----

  /** The latest stamp among the landed writes is a completion, later than every failure. */
  ghost predicate LatestCompletes(log: seq<Entry>, scope: Scope, at: int) {
    && Entry(scope, Completed(at)) in log
    && (forall b :: Entry(scope, Completed(b)) in log ==> b <= at)
    && (forall b :: Entry(scope, Failed(b)) in log ==> b < at)
  }

  ghost predicate LatestFails(log: seq<Entry>, scope: Scope, at: int) {
    && Entry(scope, Failed(at)) in log
    && (forall b :: Entry(scope, Completed(b)) in log ==> b <= at)
    && (forall b :: Entry(scope, Failed(b)) in log ==> b <= at)
  }

  ghost predicate NoStamp(log: seq<Entry>, scope: Scope) {
    forall at :: Entry(scope, Completed(at)) !in log && Entry(scope, Failed(at)) !in log
  }

  lemma LatestGoverns(log: seq<Entry>, scope: Scope, at: int)
    ensures var row := Stored(AllWritten(map[], log), scope);
            && (LatestCompletes(log, scope, at) ==> CompletionGoverns(row, at))
            && (LatestFails(log, scope, at) ==> FailureGoverns(row, at))
            && (NoStamp(log, scope) ==> row.completedAt.None? && row.failedAt.None?)
  {
    RowIsLeast(map[], log, scope);
    var row := Stored(AllWritten(map[], log), scope);
    if LatestCompletes(log, scope, at) {
      assert Covers(row, Entry(scope, Completed(at)).write);
    }
    if LatestFails(log, scope, at) {
      assert Covers(row, Entry(scope, Failed(at)).write);
    }
  }

  ghost predicate ChainScheduled(s: Sys, job: nat, scope: Scope, summarize: bool) {
    && job in s.jobs && s.jobs[job].view.scope == scope && s.jobs[job].dreamDue
    && s.jobs[job].phases == [Light, Rem, Deep] + if summarize then [Summarize] else []
  }

  /** In every run a free scope gets its full chain exactly when its latest visible stamp is
      old enough: the interval after a completion, the backoff after a failure, ties being
      failures, and at once with no stamp.  Otherwise only new messages schedule anything,
      and that is a summarize sweep. */
  lemma LatestStampGoverns(cfg: Config, start: int, actions: seq<Action>, id: nat, job: nat, summarize: bool, at: int)
    requires id in Run(cfg, Init(start), actions).views && job !in Run(cfg, Init(start), actions).jobs
    ensures var s := Run(cfg, Init(start), actions);
            var view, s' := s.views[id], Step(cfg, s, Schedule(id, job, summarize, true));
            view.seen <= |s.log| &&
            var seen := s.log[..view.seen];
            var chain := ChainScheduled(s', job, view.scope, summarize);
            && (LatestCompletes(seen, view.scope, at) ==>
                  (chain <==> view.tickNow - at >= cfg.dreamIntervalSeconds * 1_000_000))
            && (LatestFails(seen, view.scope, at) ==>
                  (chain <==> view.tickNow - at >= cfg.dreamFailureBackoffSeconds * 1_000_000))
            && (NoStamp(seen, view.scope) ==> chain)
            && (!chain ==> (job in s'.jobs <==> summarize && view.watermark > view.state.watermark))
            && (!chain && job in s'.jobs ==> s'.jobs[job].phases == [Summarize])
  {
    RunInv(cfg, Init(start), actions);
    var s := Run(cfg, Init(start), actions);
    var view := s.views[id];
    assert ViewOk(s, view);
    LatestGoverns(s.log[..view.seen], view.scope, at);
    DueIffWaited(cfg, view.state, view.tickNow);
  }

  /** Without the dream ports no full chain is ever scheduled. */
  lemma IncapableNeverDreams(cfg: Config, s: Sys, id: nat, job: nat, summarize: bool)
    requires id in s.views && job !in s.jobs
    ensures var s' := Step(cfg, s, Schedule(id, job, summarize, false));
            job in s'.jobs ==> summarize && s'.jobs[job].phases == [Summarize] && !s'.jobs[job].dreamDue
  {
  }

  /** A full chain is scheduled only when every stamp its state read could see was at least
      the shorter of the two waits old. */
  lemma ChainsKeepTheirDistance(cfg: Config, start: int, actions: seq<Action>, job: nat, i: nat, at: int)
    requires var s := Run(cfg, Init(start), actions);
             && job in s.jobs && s.jobs[job].dreamDue
             && i < s.jobs[job].view.seen && i < |s.log| && IsStamp(s.log[i], s.jobs[job].view.scope, at)
    ensures Run(cfg, Init(start), actions).jobs[job].view.tickNow - at >= ShortestWait(cfg)
  {
    RunInv(cfg, Init(start), actions);
    var s := Run(cfg, Init(start), actions);
    var view := s.jobs[job].view;
    assert JobOk(cfg, s, s.jobs[job]);
    DueWindow(cfg, view.state, view.tickNow);
    RowIsLeast(map[], s.log[..view.seen], view.scope);
    assert s.log[..view.seen][i] == s.log[i];
  }

  /** In every reachable state the stored state is the one any other order or repetition of
      the landed writes would have left. */
  lemma TableIsItsWrites(cfg: Config, start: int, actions: seq<Action>, log: seq<Entry>)
    requires forall e :: e in log <==> e in Run(cfg, Init(start), actions).log
    ensures Run(cfg, Init(start), actions).table == AllWritten(map[], log)
  {
    RunInv(cfg, Init(start), actions);
    OrderAndRepetitionDoNotMatter(map[], Run(cfg, Init(start), actions).log, log);
  }
}
