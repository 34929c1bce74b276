/** The durable dream lease and the in-process lock in front of it.

    Each catalog call, together with its clock read, is one atomic step on a table of
    lease rows.  Times are integer microseconds on one clock that never runs backwards. */
module DreamLease {
  import opened Common

  const MINUTE: int := 60_000_000
  const DREAM_LEASE_TTL: int := 20 * MINUTE

  /** A tenant and an agent; the shared agent is the empty string in the table. */
  datatype Scope = Scope(tenantId: string, agentId: string)
  datatype Lease = Lease(holder: string, expiresAt: int)
  type Rows = map<Scope, Lease>

  // ---- the three statements ----

  predicate Claimable(rows: Rows, scope: Scope, now: int) {
    scope !in rows || rows[scope].expiresAt <= now
  }

  predicate HeldBy(rows: Rows, scope: Scope, holder: string) {
    scope in rows && rows[scope].holder == holder
  }

  function Acquired(rows: Rows, scope: Scope, holder: string, now: int, expiresAt: int): Rows {
    if Claimable(rows, scope, now) then rows[scope := Lease(holder, expiresAt)] else rows
  }

  function Renewed(rows: Rows, scope: Scope, holder: string, expiresAt: int): Rows {
    if HeldBy(rows, scope, holder) then rows[scope := Lease(holder, expiresAt)] else rows
  }

  function Released(rows: Rows, scope: Scope, holder: string): Rows {
    if HeldBy(rows, scope, holder) then rows - {scope} else rows
  }

  /** The lease table of the control plane. */
  class LeaseTable {
    var rows: Rows

    constructor ()
      ensures rows == map[]
    {
      rows := map[];
    }

    method AcquireDreamLease(scope: Scope, holder: string, now: int, expiresAt: int) returns (claimed: bool)
      modifies this
      ensures rows == Acquired(old(rows), scope, holder, now, expiresAt)
      ensures claimed == Claimable(old(rows), scope, now)
    {
      if scope !in rows {
        rows := rows[scope := Lease(holder, expiresAt)];
        claimed := true;
      } else if rows[scope].expiresAt <= now {
        rows := rows[scope := Lease(holder, expiresAt)];
        claimed := true;
      } else {
        claimed := false;
      }
    }

    method RenewDreamLease(scope: Scope, holder: string, expiresAt: int) returns (stillOurs: bool)
      modifies this
      ensures rows == Renewed(old(rows), scope, holder, expiresAt)
      ensures stillOurs == HeldBy(old(rows), scope, holder)
    {
      stillOurs := scope in rows && rows[scope].holder == holder;
      if stillOurs {
        rows := rows[scope := rows[scope].(expiresAt := expiresAt)];
      }
    }

    method ReleaseDreamLease(scope: Scope, holder: string)
      modifies this
      ensures rows == Released(old(rows), scope, holder)
    {
      if scope in rows && rows[scope].holder == holder {
        rows := rows - {scope};
      }
    }
  }

  // ---- the in-process lock ----

  datatype Attempt = Claimed | Refused | Raised

  /** `_acquire_dream_trigger_lock`: a refusal or an exception drops the in-process claim. */
  function LockAttempt(inflight: set<Scope>, rows: Rows, scope: Scope, now: int, fault: Fault): Attempt {
    if scope in inflight then Refused
    else if !fault.Answers? then Raised
    else if Claimable(rows, scope, now) then Claimed
    else Refused
  }

  function LockedInflight(inflight: set<Scope>, rows: Rows, scope: Scope, now: int, fault: Fault): set<Scope> {
    if LockAttempt(inflight, rows, scope, now, fault).Claimed? then inflight + {scope} else inflight
  }

  function LockedRows(inflight: set<Scope>, rows: Rows, scope: Scope, holder: string, now: int, fault: Fault): Rows {
    if scope in inflight || fault.RaisesBefore? then rows
    else Acquired(rows, scope, holder, now, now + DREAM_LEASE_TTL)
  }

  /** `_release_dream_trigger_lock`: the lease is released unless the job was cancelled,
      and a throwing release leaves the row to lapse. */
  function UnlockedRows(rows: Rows, scope: Scope, holder: string, releaseLease: bool, fault: Fault): Rows {
    if !releaseLease || fault.RaisesBefore? then rows else Released(rows, scope, holder)
  }

  /** One serving process. */
  class DreamTriggerLock {
    const holder: string
    const catalog: LeaseTable
    var inflight: set<Scope>

    constructor (holder: string, catalog: LeaseTable)
      ensures this.holder == holder && this.catalog == catalog && inflight == {}
    {
      this.holder, this.catalog := holder, catalog;
      inflight := {};
    }

    method Acquire(scope: Scope, now: int, fault: Fault) returns (r: Attempt)
      modifies this, catalog
      ensures r == LockAttempt(old(inflight), old(catalog.rows), scope, now, fault)
      ensures inflight == LockedInflight(old(inflight), old(catalog.rows), scope, now, fault)
      ensures catalog.rows == LockedRows(old(inflight), old(catalog.rows), scope, holder, now, fault)
    {
      if scope in inflight {
        return Refused;
      }
      inflight := inflight + {scope};
      var claimed := false;
      if !fault.RaisesBefore? {
        claimed := catalog.AcquireDreamLease(scope, holder, now, now + DREAM_LEASE_TTL);
      }
      if !fault.Answers? {
        inflight := inflight - {scope};
        return Raised;
      }
      if claimed {
        return Claimed;
      }
      inflight := inflight - {scope};
      r := Refused;
    }

    method Release(scope: Scope, releaseLease: bool, fault: Fault)
      modifies this, catalog
      ensures inflight == old(inflight) - {scope}
      ensures catalog.rows == UnlockedRows(old(catalog.rows), scope, holder, releaseLease, fault)
    {
      inflight := inflight - {scope};
      if !releaseLease {
        return;
      }
      if !fault.RaisesBefore? {
        catalog.ReleaseDreamLease(scope, holder);
      }
    }
  }

  // ---- every run of several processes ----

  /** A job is handed over as a task and begins with that task's first step.  A cancelled
      job's worker thread drains: it still writes, but nothing renews for it. */
  datatype JobState = Queued | Running | Draining
  datatype Job = Job(scope: Scope, holder: string, state: JobState, confirmedAt: int)

  /** `stranded` is history: the claims of jobs that were cancelled before they began. */
  datatype Sys = Sys(now: int, rows: Rows, inflight: map<string, set<Scope>>, jobs: map<nat, Job>,
                     crashed: set<string>, stranded: set<(string, Scope)>)

  /** `Start` is a process taking its lock and handing over a job; its event loop runs that
      and `Finish` without a step of its own in between. */
  datatype Action =
    | Elapse(delta: nat)
    | Start(id: nat, holder: string, scope: Scope, fault: Fault)
    | Begin(id: nat)
    | Heartbeat(id: nat, fault: Fault)
    | Cancel(id: nat)
    | Finish(id: nat, fault: Fault)
    | Drained(id: nat)
    | Crash(holder: string)

  function Init(now: int): Sys {
    Sys(now, map[], map[], map[], {}, {})
  }

  function InflightOf(s: Sys, holder: string): set<Scope> {
    if holder in s.inflight then s.inflight[holder] else {}
  }

  /** Handed over and not cancelled, so its heartbeat renews for it. */
  predicate IsRunning(s: Sys, id: nat) {
    id in s.jobs && !s.jobs[id].state.Draining?
  }

  function StartStep(s: Sys, id: nat, holder: string, scope: Scope, fault: Fault): Sys {
    var mine := InflightOf(s, holder);
    var locked := s.(rows := LockedRows(mine, s.rows, scope, holder, s.now, fault),
                     inflight := s.inflight[holder := LockedInflight(mine, s.rows, scope, s.now, fault)]);
    if LockAttempt(mine, s.rows, scope, s.now, fault).Claimed? then
      locked.(jobs := s.jobs[id := Job(scope, holder, Queued, s.now)])
    else
      locked
  }

  /** A job that has begun drops its claim and drains.  One that has not never runs its own
      clean-up, so its claim stays behind. */
  function CancelStep(s: Sys, id: nat): Sys
    requires IsRunning(s, id)
  {
    var job := s.jobs[id];
    if job.state.Queued? then
      s.(jobs := s.jobs - {id}, stranded := s.stranded + {(job.holder, job.scope)})
    else
      s.(rows := UnlockedRows(s.rows, job.scope, job.holder, false, Answers),
         inflight := s.inflight[job.holder := InflightOf(s, job.holder) - {job.scope}],
         jobs := s.jobs[id := job.(state := Draining)])
  }

  /** A renewal that is answered confirms the lease, or cancels the job that lost it. */
  function HeartbeatStep(s: Sys, id: nat, fault: Fault): Sys
    requires IsRunning(s, id)
  {
    var job := s.jobs[id];
    if fault.RaisesBefore? then s
    else
      var rows := Renewed(s.rows, job.scope, job.holder, s.now + DREAM_LEASE_TTL);
      if fault.RaisesAfter? then s.(rows := rows)
      else if HeldBy(s.rows, job.scope, job.holder) then
        s.(rows := rows, jobs := s.jobs[id := job.(confirmedAt := s.now)])
      else CancelStep(s, id)
  }

  function FinishStep(s: Sys, id: nat, fault: Fault): Sys
    requires IsRunning(s, id)
  {
    var job := s.jobs[id];
    s.(rows := UnlockedRows(s.rows, job.scope, job.holder, true, fault),
       inflight := s.inflight[job.holder := InflightOf(s, job.holder) - {job.scope}],
       jobs := s.jobs - {id})
  }

  function Survivors(jobs: map<nat, Job>, holder: string): map<nat, Job> {
    map id | id in jobs && jobs[id].holder != holder :: jobs[id]
  }

  /** An action that is not enabled changes nothing. */
  function Step(s: Sys, a: Action): Sys {
    match a
    case Elapse(delta) => s.(now := s.now + delta)
    case Start(id, holder, scope, fault) =>
      if id !in s.jobs && holder !in s.crashed then StartStep(s, id, holder, scope, fault) else s
    case Heartbeat(id, fault) => if IsRunning(s, id) then HeartbeatStep(s, id, fault) else s
    case Cancel(id) => if IsRunning(s, id) then CancelStep(s, id) else s
    case Begin(id) =>
      if id in s.jobs && s.jobs[id].state.Queued? then s.(jobs := s.jobs[id := s.jobs[id].(state := Running)]) else s
    case Finish(id, fault) =>
      if id in s.jobs && s.jobs[id].state.Running? then FinishStep(s, id, fault) else s
    case Drained(id) =>
      if id in s.jobs && s.jobs[id].state.Draining? then s.(jobs := s.jobs - {id}) else s
    case Crash(holder) =>
      s.(jobs := Survivors(s.jobs, holder), inflight := s.inflight[holder := {}], crashed := s.crashed + {holder},
         stranded := set p | p in s.stranded && p.0 != holder)
  }

  function Run(s: Sys, actions: seq<Action>): Sys {
    if actions == [] then s
    else Step(Run(s, actions[..|actions| - 1]), actions[|actions| - 1])
  }
}
