/** Who may be dreaming a scope, over every run of processes, jobs, faults and crashes. */
module DreamLeaseTheorems {
  import opened Common
  import opened DreamLease

  /** Confirmed and not yet expired, as the job itself knows it. */
  ghost predicate Confirmed(s: Sys, id: nat) {
    id in s.jobs && s.now < s.jobs[id].confirmedAt + DREAM_LEASE_TTL
  }

  ghost predicate SameScope(s: Sys, i: nat, j: nat) {
    i in s.jobs && j in s.jobs && i != j && s.jobs[i].scope == s.jobs[j].scope
  }

  /** No row outlives a lease period from now. */
  ghost predicate RowsOk(s: Sys) {
    forall k :: k in s.rows ==> s.rows[k].expiresAt <= s.now + DREAM_LEASE_TTL
  }

  /** A confirmed job's row is its own and lasts at least as long as the job believes. */
  ghost predicate JobOk(s: Sys, id: nat)
    requires id in s.jobs
  {
    var job := s.jobs[id];
    && job.confirmedAt <= s.now
    && job.holder !in s.crashed
    && (Confirmed(s, id) ==>
          HeldBy(s.rows, job.scope, job.holder) && s.rows[job.scope].expiresAt >= job.confirmedAt + DREAM_LEASE_TTL)
  }

  ghost predicate PairOk(s: Sys, i: nat, j: nat) {
    SameScope(s, i, j) ==>
      && !(Confirmed(s, i) && Confirmed(s, j))
      && (s.jobs[i].holder == s.jobs[j].holder && !s.jobs[i].state.Draining? ==>
            s.jobs[j].state.Draining? && !Confirmed(s, j))
  }

  ghost predicate Runs(s: Sys, holder: string, scope: Scope) {
    exists id :: IsRunning(s, id) && s.jobs[id].holder == holder && s.jobs[id].scope == scope
  }

  /** The in-process claims of a process are the scopes it is running and those stranded. */
  ghost predicate ClaimOk(s: Sys, holder: string, scope: Scope) {
    && (scope in InflightOf(s, holder) <==> Runs(s, holder, scope) || (holder, scope) in s.stranded)
    && !(Runs(s, holder, scope) && (holder, scope) in s.stranded)
  }

  ghost predicate Inv(s: Sys) {
    && RowsOk(s)
    && (forall id :: id in s.jobs ==> JobOk(s, id))
    && (forall i, j :: PairOk(s, i, j))
    && (forall holder, scope :: ClaimOk(s, holder, scope))
  }

  // ---- each action keeps the invariant ----

  lemma StartKeepsJobs(s: Sys, id: nat, holder: string, scope: Scope, fault: Fault)
    requires Inv(s) && id !in s.jobs && holder !in s.crashed
    ensures var s' := StartStep(s, id, holder, scope, fault);
            RowsOk(s') && forall k :: k in s'.jobs ==> JobOk(s', k)
  {
    var s' := StartStep(s, id, holder, scope, fault);
    forall k | k in s'.jobs ensures JobOk(s', k) {
      if k in s.jobs {
        assert JobOk(s, k);
      }
    }
  }

  lemma NoneConfirmed(s: Sys, scope: Scope)
    requires Inv(s) && Claimable(s.rows, scope, s.now)
    ensures forall k :: k in s.jobs && s.jobs[k].scope == scope ==> !Confirmed(s, k)
  {
  }

  lemma StartKeepsPairs(s: Sys, id: nat, holder: string, scope: Scope, fault: Fault)
    requires Inv(s) && id !in s.jobs && holder !in s.crashed
    ensures forall i, j :: PairOk(StartStep(s, id, holder, scope, fault), i, j)
  {
    var s' := StartStep(s, id, holder, scope, fault);
    if LockAttempt(InflightOf(s, holder), s.rows, scope, s.now, fault).Claimed? {
      NoneConfirmed(s, scope);
      assert ClaimOk(s, holder, scope);
    }
    forall i, j ensures PairOk(s', i, j) {
      assert PairOk(s, i, j);
    }
  }

  lemma StartKeepsClaims(s: Sys, id: nat, holder: string, scope: Scope, fault: Fault)
    requires Inv(s) && id !in s.jobs && holder !in s.crashed
    ensures forall h, k :: ClaimOk(StartStep(s, id, holder, scope, fault), h, k)
  {
    var s' := StartStep(s, id, holder, scope, fault);
    forall h, k ensures ClaimOk(s', h, k) {
      assert ClaimOk(s, h, k);
      if LockAttempt(InflightOf(s, holder), s.rows, scope, s.now, fault).Claimed? {
        if i :| IsRunning(s, i) && s.jobs[i].holder == h && s.jobs[i].scope == k {
          assert IsRunning(s', i);
        }
        if h == holder && k == scope {
          assert IsRunning(s', id);
        }
      }
    }
  }

  /** Ending a begun job, as `Cancel` and `Finish` do, frees exactly its claim. */
  lemma EndKeepsClaims(s: Sys, id: nat, s': Sys)
    requires Inv(s) && IsRunning(s, id) && s'.stranded == s.stranded
    requires var job := s.jobs[id];
             s'.inflight == s.inflight[job.holder := InflightOf(s, job.holder) - {job.scope}]
    requires !IsRunning(s', id)
    requires forall i :: i != id ==> (i in s'.jobs <==> i in s.jobs) && (i in s.jobs ==> s'.jobs[i] == s.jobs[i])
    ensures forall h, k :: ClaimOk(s', h, k)
  {
    var job := s.jobs[id];
    forall h, k ensures ClaimOk(s', h, k) {
      assert ClaimOk(s, h, k);
      assert h == job.holder && k == job.scope ==> Runs(s, h, k);
      if i :| IsRunning(s, i) && s.jobs[i].holder == h && s.jobs[i].scope == k {
        assert PairOk(s, i, id);
        assert i != id ==> IsRunning(s', i);
      }
      if i :| IsRunning(s', i) && s'.jobs[i].holder == h && s'.jobs[i].scope == k {
        assert IsRunning(s, i) && PairOk(s, i, id);
      }
    }
  }

  /** Cancelling a job before it begins turns its claim into a stranded one. */
  lemma DropKeepsClaims(s: Sys, id: nat)
    requires Inv(s) && id in s.jobs && s.jobs[id].state.Queued?
    ensures forall h, k :: ClaimOk(CancelStep(s, id), h, k)
  {
    var s', job := CancelStep(s, id), s.jobs[id];
    assert IsRunning(s, id);
    forall h, k ensures ClaimOk(s', h, k) {
      assert ClaimOk(s, h, k);
      assert h == job.holder && k == job.scope ==> Runs(s, h, k);
      if i :| IsRunning(s, i) && s.jobs[i].holder == h && s.jobs[i].scope == k {
        assert PairOk(s, i, id);
        assert i != id ==> IsRunning(s', i);
      }
      if i :| IsRunning(s', i) && s'.jobs[i].holder == h && s'.jobs[i].scope == k {
        assert IsRunning(s, i) && PairOk(s, i, id);
      }
    }
  }

  lemma CancelInv(s: Sys, id: nat)
    requires Inv(s) && IsRunning(s, id)
    ensures Inv(CancelStep(s, id))
  {
    var s' := CancelStep(s, id);
    if s.jobs[id].state.Queued? {
      DropKeepsClaims(s, id);
    } else {
      EndKeepsClaims(s, id, s');
    }
    forall k | k in s'.jobs ensures JobOk(s', k) {
      assert JobOk(s, k);
    }
    forall i, j ensures PairOk(s', i, j) {
      assert PairOk(s, i, j) && PairOk(s, j, i);
    }
  }

  lemma BeginInv(s: Sys, id: nat)
    requires Inv(s) && id in s.jobs && s.jobs[id].state.Queued?
    ensures Inv(Step(s, Begin(id)))
  {
    var s' := Step(s, Begin(id));
    forall k | k in s'.jobs ensures JobOk(s', k) {
      assert JobOk(s, k);
    }
    forall i, j ensures PairOk(s', i, j) {
      assert PairOk(s, i, j);
    }
    assert forall i :: IsRunning(s, i) <==> IsRunning(s', i);
    forall h, k ensures ClaimOk(s', h, k) {
      assert ClaimOk(s, h, k);
    }
  }

  lemma FinishInv(s: Sys, id: nat, fault: Fault)
    requires Inv(s) && IsRunning(s, id)
    ensures Inv(FinishStep(s, id, fault))
  {
    var s', job := FinishStep(s, id, fault), s.jobs[id];
    EndKeepsClaims(s, id, s');
    forall k | k in s'.jobs ensures JobOk(s', k) {
      assert JobOk(s, k) && PairOk(s, id, k);
    }
    forall i, j ensures PairOk(s', i, j) {
      assert PairOk(s, i, j);
    }
  }

  lemma HeartbeatInv(s: Sys, id: nat, fault: Fault)
    requires Inv(s) && IsRunning(s, id)
    ensures Inv(HeartbeatStep(s, id, fault))
  {
    var s', job := HeartbeatStep(s, id, fault), s.jobs[id];
    if fault.Answers? && !HeldBy(s.rows, job.scope, job.holder) {
      CancelInv(s, id);
    } else {
      forall k | k in s'.jobs ensures JobOk(s', k) {
        assert JobOk(s, k);
      }
      forall i, j ensures PairOk(s', i, j) {
        assert PairOk(s, i, j) && PairOk(s, j, i);
        assert SameScope(s, i, j) ==> JobOk(s, i) && JobOk(s, j);
      }
      forall h, k ensures ClaimOk(s', h, k) {
        assert ClaimOk(s, h, k);
        assert forall i :: IsRunning(s, i) <==> IsRunning(s', i);
      }
    }
  }

  lemma DrainedInv(s: Sys, id: nat)
    requires Inv(s) && id in s.jobs && s.jobs[id].state.Draining?
    ensures Inv(s.(jobs := s.jobs - {id}))
  {
    var s' := s.(jobs := s.jobs - {id});
    forall k | k in s'.jobs ensures JobOk(s', k) {
      assert JobOk(s, k);
    }
    forall i, j ensures PairOk(s', i, j) {
      assert PairOk(s, i, j);
    }
    forall h, k ensures ClaimOk(s', h, k) {
      assert ClaimOk(s, h, k);
      assert forall i :: IsRunning(s, i) <==> IsRunning(s', i);
    }
  }

  lemma CrashInv(s: Sys, holder: string)
    requires Inv(s)
    ensures Inv(Step(s, Crash(holder)))
  {
    var s' := Step(s, Crash(holder));
    forall k | k in s'.jobs ensures JobOk(s', k) {
      assert JobOk(s, k);
    }
    forall i, j ensures PairOk(s', i, j) {
      assert PairOk(s, i, j);
    }
    forall h, k ensures ClaimOk(s', h, k) {
      assert ClaimOk(s, h, k);
      assert forall i :: IsRunning(s', i) <==> IsRunning(s, i) && s.jobs[i].holder != holder;
    }
  }

  lemma ElapseInv(s: Sys, delta: nat)
    requires Inv(s)
    ensures Inv(s.(now := s.now + delta))
  {
    var s' := s.(now := s.now + delta);
    forall k | k in s'.jobs ensures JobOk(s', k) {
      assert JobOk(s, k);
    }
    forall i, j ensures PairOk(s', i, j) {
      assert PairOk(s, i, j);
    }
    forall h, k ensures ClaimOk(s', h, k) {
      assert ClaimOk(s, h, k);
      assert forall i :: IsRunning(s, i) <==> IsRunning(s', i);
    }
  }

  lemma StepInv(s: Sys, a: Action)
    requires Inv(s)
    ensures Inv(Step(s, a))
  {
    match a
    case Elapse(delta) => ElapseInv(s, delta);
    case Start(id, holder, scope, fault) =>
      if id !in s.jobs && holder !in s.crashed {
        StartKeepsJobs(s, id, holder, scope, fault);
        StartKeepsPairs(s, id, holder, scope, fault);
        StartKeepsClaims(s, id, holder, scope, fault);
      }
    case Heartbeat(id, fault) => if IsRunning(s, id) { HeartbeatInv(s, id, fault); }
    case Cancel(id) => if IsRunning(s, id) { CancelInv(s, id); }
    case Begin(id) => if id in s.jobs && s.jobs[id].state.Queued? { BeginInv(s, id); }
    case Finish(id, fault) => if IsRunning(s, id) { FinishInv(s, id, fault); }
    case Drained(id) => if id in s.jobs && s.jobs[id].state.Draining? { DrainedInv(s, id); }
    case Crash(holder) => CrashInv(s, holder);
  }

  lemma {:induction false} RunInv(s: Sys, actions: seq<Action>)
    requires Inv(s)
    ensures Inv(Run(s, actions))
  {
    if actions != [] {
      RunInv(s, actions[..|actions| - 1]);
      StepInv(Run(s, actions[..|actions| - 1]), actions[|actions| - 1]);
    }
  }

  // ---- the theorems ----

  /** In every reachable state, of two jobs alive on one scope at least one has gone a full
      lease period without a confirmed renewal; so at most one holds a confirmed lease. */
  lemma OverlapNeedsLapse(start: int, actions: seq<Action>, i: nat, j: nat)
    requires SameScope(Run(Init(start), actions), i, j)
    ensures var s := Run(Init(start), actions);
            || s.now - s.jobs[i].confirmedAt >= DREAM_LEASE_TTL
            || s.now - s.jobs[j].confirmedAt >= DREAM_LEASE_TTL
  {
    RunInv(Init(start), actions);
    assert PairOk(Run(Init(start), actions), i, j);
  }

  /** A confirmed job's own row is in the table for as long as the job believes, and the
      in-process claims are those of the running jobs and of the jobs cancelled before they
      began: no storage fault strands a claim. */
  lemma ClaimsMatchJobs(start: int, actions: seq<Action>)
    ensures var s := Run(Init(start), actions);
            && (forall id :: Confirmed(s, id) ==> HeldBy(s.rows, s.jobs[id].scope, s.jobs[id].holder))
            && (forall h, k :: k in InflightOf(s, h) <==> Runs(s, h, k) || (h, k) in s.stranded)
  {
    RunInv(Init(start), actions);
    var s := Run(Init(start), actions);
    forall id | Confirmed(s, id) ensures HeldBy(s.rows, s.jobs[id].scope, s.jobs[id].holder) {
      assert JobOk(s, id);
    }
    forall h, k ensures k in InflightOf(s, h) <==> Runs(s, h, k) || (h, k) in s.stranded {
      assert ClaimOk(s, h, k);
    }
  }

  /** Every claim belongs to a running job if and only if no process still alive has had a
      job cancelled before it began. */
  lemma EveryClaimHasAJobIff(start: int, actions: seq<Action>)
    ensures var s := Run(Init(start), actions);
            (forall h, k :: k in InflightOf(s, h) ==> Runs(s, h, k)) <==> s.stranded == {}
  {
    RunInv(Init(start), actions);
    var s := Run(Init(start), actions);
    if s.stranded == {} {
      forall h, k | k in InflightOf(s, h) ensures Runs(s, h, k) {
        assert ClaimOk(s, h, k);
      }
    } else {
      var p :| p in s.stranded;
      var h, k := p.0, p.1;
      assert p == (h, k) && ClaimOk(s, h, k);
      assert k in InflightOf(s, h) && !Runs(s, h, k);
    }
  }

  lemma StrandedStep(s: Sys, a: Action, holder: string, scope: Scope)
    requires Inv(s) && (holder, scope) in s.stranded && a != Crash(holder)
    ensures (holder, scope) in Step(s, a).stranded && !Runs(Step(s, a), holder, scope)
  {
    StepInv(s, a);
    assert ClaimOk(s, holder, scope) && ClaimOk(Step(s, a), holder, scope);
  }

  /** Such a claim does harm: its process never runs the scope again until it restarts, long
      after the lease has lapsed. */
  lemma {:induction false} StrandedUntilRestart(s: Sys, actions: seq<Action>, holder: string, scope: Scope)
    requires Inv(s) && (holder, scope) in s.stranded && Crash(holder) !in actions
    ensures (holder, scope) in Run(s, actions).stranded && !Runs(Run(s, actions), holder, scope)
  {
    if actions == [] {
      assert ClaimOk(s, holder, scope);
    } else {
      var init, last := actions[..|actions| - 1], actions[|actions| - 1];
      assert last in actions;
      StrandedUntilRestart(s, init, holder, scope);
      RunInv(s, init);
      StrandedStep(Run(s, init), last, holder, scope);
    }
  }

  /** It is reachable: one start and one cancellation. */
  lemma CancelBeforeBeginStrands(start: int, holder: string, scope: Scope)
    ensures var s := Run(Init(start), [Start(0, holder, scope, Answers), Cancel(0)]);
            && (holder, scope) in s.stranded && scope in InflightOf(s, holder) && s.jobs == map[]
  {
    var a, b := Start(0, holder, scope, Answers), Cancel(0);
    assert [a, b][..1] == [a] && [a][..0] == [];
    var s1 := Step(Init(start), a);
    assert s1.jobs == map[0 := Job(scope, holder, Queued, start)];
    assert Run(Init(start), []) == Init(start) && Run(Init(start), [a]) == s1;
  }

  /** The step ends a running job of this holder on this scope. */
  ghost predicate FinishesOwn(s: Sys, a: Action, scope: Scope, holder: string) {
    a.Finish? && IsRunning(s, a.id) && s.jobs[a.id].scope == scope && s.jobs[a.id].holder == holder
  }

  /** A lease that has not expired changes hands or disappears in no step but the end of its
      own holder's job: late releases and late renewals of others leave it alone. */
  lemma {:induction false} OnlyOwnFinishFrees(s: Sys, a: Action, scope: Scope)
    requires scope in s.rows && s.now < s.rows[scope].expiresAt
    ensures var holder := s.rows[scope].holder;
            FinishesOwn(s, a, scope, holder) || HeldBy(Step(s, a).rows, scope, holder)
  {
    assert !Claimable(s.rows, scope, s.now);
  }

  ghost predicate Unexpired(s: Sys, scope: Scope) {
    scope in s.rows ==> s.now < s.rows[scope].expiresAt
  }

  /** Over a whole run: while the lease is kept from expiring and its holder does not end its
      own job, the scope stays with the holder, whatever every other process does. */
  lemma {:induction false} LeaseStaysWithHolder(s: Sys, actions: seq<Action>, scope: Scope, holder: string)
    requires HeldBy(s.rows, scope, holder)
    requires forall n :: 0 <= n < |actions| ==>
               Unexpired(Run(s, actions[..n]), scope) && !FinishesOwn(Run(s, actions[..n]), actions[n], scope, holder)
    ensures HeldBy(Run(s, actions).rows, scope, holder)
  {
    if actions != [] {
      var init := actions[..|actions| - 1];
      forall n | 0 <= n < |init|
        ensures Unexpired(Run(s, init[..n]), scope) && !FinishesOwn(Run(s, init[..n]), init[n], scope, holder)
      {
        assert init[..n] == actions[..n];
      }
      LeaseStaysWithHolder(s, init, scope, holder);
      OnlyOwnFinishFrees(Run(s, init), actions[|actions| - 1], scope);
    }
  }

  /** A job starts exactly when its process holds no claim on the scope and nobody holds an
      unexpired lease on it; it then owns the row for twenty minutes from now. */
  lemma StartsIffFree(start: int, actions: seq<Action>, id: nat, holder: string, scope: Scope)
    requires id !in Run(Init(start), actions).jobs && holder !in Run(Init(start), actions).crashed
    ensures var s := Run(Init(start), actions);
            var s' := Step(s, Start(id, holder, scope, Answers));
            var free := scope !in InflightOf(s, holder) && (scope !in s.rows || s.rows[scope].expiresAt <= s.now);
            && (IsRunning(s', id) <==> free)
            && (free ==>
                  && s'.rows == s.rows[scope := Lease(holder, s.now + 1_200_000_000)]
                  && s'.jobs == s.jobs[id := Job(scope, holder, Queued, s.now)]
                  && InflightOf(s', holder) == InflightOf(s, holder) + {scope})
            && (!free ==> s'.rows == s.rows && s'.jobs == s.jobs && InflightOf(s', holder) == InflightOf(s, holder))
  {
  }

  /** An acquisition that raises starts nothing and claims nothing in the process.  Raised after
      its effect it leaves a row that nobody renews or releases: on a free scope no job joins
      until that row has expired, twenty minutes later. */
  lemma RaisedAcquireBlocks(start: int, before: seq<Action>, id: nat, holder: string, scope: Scope, fault: Fault,
                            after: seq<Action>)
    requires var s := Run(Init(start), before);
             id !in s.jobs && holder !in s.crashed && !fault.Answers?
    ensures var s := Run(Init(start), before);
            var s1 := Step(s, Start(id, holder, scope, fault));
            var lands := fault.RaisesAfter? && scope !in InflightOf(s, holder)
                         && (scope !in s.rows || s.rows[scope].expiresAt <= s.now);
            && s1.jobs == s.jobs && InflightOf(s1, holder) == InflightOf(s, holder)
            && s1.rows == (if lands then s.rows[scope := Lease(holder, s.now + 1_200_000_000)] else s.rows)
            && var s' := Run(s1, after);
               lands && s'.now < s.now + 1_200_000_000 ==>
                 && scope in s'.rows && s'.rows[scope] == Lease(holder, s.now + 1_200_000_000)
                 && forall j :: j in s'.jobs && s'.jobs[j].scope == scope ==> j in s.jobs
  {
    var s := Run(Init(start), before);
    RunInv(Init(start), before);
    var a := Start(id, holder, scope, fault);
    StepInv(s, a);
    var s1 := Step(s, a);
    if fault.RaisesAfter? && scope !in InflightOf(s, holder) && Claimable(s.rows, scope, s.now)
       && Run(s1, after).now < s.now + DREAM_LEASE_TTL {
      assert ClaimOk(s, holder, scope);
      forall j | IsRunning(s1, j) && s1.jobs[j].scope == scope ensures s1.jobs[j].holder != holder {
        assert IsRunning(s, j);
      }
      OrphanedRowStays(s1, after, scope, Lease(holder, s.now + DREAM_LEASE_TTL));
    }
  }

  /** No step but a start on the scope gives a free scope a row. */
  lemma {:induction false} FreeStaysFree(s: Sys, actions: seq<Action>, scope: Scope)
    requires scope !in s.rows
    requires forall a :: a in actions && a.Start? ==> a.scope != scope
    ensures scope !in Run(s, actions).rows
  {
    if actions != [] {
      var init, last := actions[..|actions| - 1], actions[|actions| - 1];
      assert last in actions;
      FreeStaysFree(s, init, scope);
    }
  }

  /** Finishing frees the scope, unless the release fails before its effect: the job, its claim
      and the row are gone, and until somebody starts on the scope again any process alive that
      does not claim it can start at once. */
  lemma FinishFreesTheScope(start: int, before: seq<Action>, id: nat, fault: Fault, after: seq<Action>, next: nat,
                            other: string)
    requires !fault.RaisesBefore?
    requires var s := Run(Init(start), before);
             && id in s.jobs && s.jobs[id].state.Running? && HeldBy(s.rows, s.jobs[id].scope, s.jobs[id].holder)
             && forall a :: a in after && a.Start? ==> a.scope != s.jobs[id].scope
    requires var s0 := Run(Init(start), before);
             var s := Run(Step(s0, Finish(id, fault)), after);
             next !in s.jobs && other !in s.crashed && s0.jobs[id].scope !in InflightOf(s, other)
    ensures var s0 := Run(Init(start), before);
            var scope, s1 := s0.jobs[id].scope, Step(s0, Finish(id, fault));
            var s := Run(s1, after);
            && id !in s1.jobs && scope !in s1.rows && scope !in InflightOf(s1, s0.jobs[id].holder)
            && scope !in s.rows && IsRunning(Step(s, Start(next, other, scope, Answers)), next)
  {
    var s0 := Run(Init(start), before);
    FreeStaysFree(Step(s0, Finish(id, fault)), after, s0.jobs[id].scope);
  }

  /** A release that fails before its effect leaves the row as it was, so the scope is blocked
      for every process, its own included, until the row expires. */
  lemma FailedReleaseBlocks(start: int, before: seq<Action>, id: nat, after: seq<Action>)
    requires var s := Run(Init(start), before);
             && id in s.jobs && s.jobs[id].state.Running? && HeldBy(s.rows, s.jobs[id].scope, s.jobs[id].holder)
             && Run(Step(s, Finish(id, RaisesBefore)), after).now < s.rows[s.jobs[id].scope].expiresAt
    ensures var s := Run(Init(start), before);
            var scope, s' := s.jobs[id].scope, Run(Step(s, Finish(id, RaisesBefore)), after);
            && scope in s'.rows && s'.rows[scope] == s.rows[scope]
            && forall j :: j in s'.jobs && s'.jobs[j].scope == scope ==> j in s.jobs
  {
    RunInv(Init(start), before);
    var s := Run(Init(start), before);
    FinishInv(s, id, RaisesBefore);
    var s1, scope, holder := FinishStep(s, id, RaisesBefore), s.jobs[id].scope, s.jobs[id].holder;
    forall j | IsRunning(s1, j) && s1.jobs[j].scope == scope ensures s1.jobs[j].holder != holder {
      assert PairOk(s, id, j);
    }
    OrphanedRowStays(s1, after, scope, s.rows[scope]);
  }

  /** An answered heartbeat either extends the row by twenty minutes from now and confirms
      the job, or tells a job whose row is gone to stop; it never touches another's row.  One
      that raises tells the job nothing, and extends its row if it took effect. */
  lemma HeartbeatDecides(start: int, actions: seq<Action>, id: nat, fault: Fault)
    requires IsRunning(Run(Init(start), actions), id)
    ensures var s := Run(Init(start), actions);
            var job, s' := s.jobs[id], Step(s, Heartbeat(id, fault));
            if fault.RaisesBefore? then s' == s
            else if job.scope in s.rows && s.rows[job.scope].holder == job.holder then
              && s'.rows == s.rows[job.scope := Lease(job.holder, s.now + 1_200_000_000)]
              && s'.jobs == (if fault.Answers? then s.jobs[id := job.(confirmedAt := s.now)] else s.jobs)
            else if fault.RaisesAfter? then
              s' == s
            else
              && s'.rows == s.rows && !IsRunning(s', id)
              && (job.state.Running? ==> id in s'.jobs && s'.jobs[id] == job.(state := Draining))
              && (job.state.Running? ==> job.scope !in InflightOf(s', job.holder))
              && (job.state.Queued? ==> id !in s'.jobs)
  {
  }

  /** The row of a holder that runs nothing on the scope: nobody renews or releases it. */
  ghost predicate Orphaned(s: Sys, scope: Scope, holder: string) {
    forall id :: IsRunning(s, id) && s.jobs[id].scope == scope ==> s.jobs[id].holder != holder
  }

  lemma OrphanStep(s: Sys, a: Action, scope: Scope, lease: Lease)
    requires Inv(s) && scope in s.rows && s.rows[scope] == lease && Orphaned(s, scope, lease.holder)
    requires s.now < lease.expiresAt
    ensures var s' := Step(s, a);
            && scope in s'.rows && s'.rows[scope] == lease && Orphaned(s', scope, lease.holder)
            && forall id :: id in s'.jobs && s'.jobs[id].scope == scope ==> id in s.jobs && s.jobs[id].scope == scope
  {
    assert !Claimable(s.rows, scope, s.now);
  }

  lemma {:induction false} OrphanedRowStays(s: Sys, actions: seq<Action>, scope: Scope, lease: Lease)
    requires Inv(s) && scope in s.rows && s.rows[scope] == lease && Orphaned(s, scope, lease.holder)
    requires Run(s, actions).now < lease.expiresAt
    ensures var s' := Run(s, actions);
            && scope in s'.rows && s'.rows[scope] == lease && Orphaned(s', scope, lease.holder)
            && forall id :: id in s'.jobs && s'.jobs[id].scope == scope ==> id in s.jobs && s.jobs[id].scope == scope
  {
    if actions != [] {
      var init, a := actions[..|actions| - 1], actions[|actions| - 1];
      assert Run(s, init).now <= Run(s, actions).now;
      OrphanedRowStays(s, init, scope, lease);
      RunInv(s, init);
      OrphanStep(Run(s, init), a, scope, lease);
    }
  }

  /** A cancelled job keeps its lease: until the row lapses, no job starts on the scope, in
      any process including its own. */
  lemma CancelledBlocksUntilLapse(start: int, before: seq<Action>, id: nat, after: seq<Action>)
    requires IsRunning(Run(Init(start), before), id)
    requires var s := Run(Init(start), before);
             && HeldBy(s.rows, s.jobs[id].scope, s.jobs[id].holder)
             && Run(CancelStep(s, id), after).now < s.rows[s.jobs[id].scope].expiresAt
    ensures var s := Run(Init(start), before);
            var scope, s' := s.jobs[id].scope, Run(CancelStep(s, id), after);
            && scope in s'.rows && s'.rows[scope] == s.rows[scope]
            && forall j :: j in s'.jobs && s'.jobs[j].scope == scope ==> j in s.jobs
  {
    RunInv(Init(start), before);
    var s := Run(Init(start), before);
    CancelInv(s, id);
    var s1, scope, holder := CancelStep(s, id), s.jobs[id].scope, s.jobs[id].holder;
    forall j | IsRunning(s1, j) && s1.jobs[j].scope == scope ensures s1.jobs[j].holder != holder {
      assert PairOk(s, id, j);
    }
    OrphanedRowStays(s1, after, scope, s.rows[scope]);
  }

  /** A crash releases nothing: what its process held stays blocked until the rows lapse. */
  lemma CrashBlocksUntilLapse(start: int, before: seq<Action>, holder: string, scope: Scope, after: seq<Action>)
    requires var s := Run(Init(start), before);
             && HeldBy(s.rows, scope, holder) && Run(Step(s, Crash(holder)), after).now < s.rows[scope].expiresAt
    ensures var s := Run(Init(start), before);
            var s1 := Step(s, Crash(holder));
            var s' := Run(s1, after);
            && s1.rows == s.rows && (forall j :: j in s1.jobs <==> j in s.jobs && s.jobs[j].holder != holder)
            && scope in s'.rows && s'.rows[scope] == s.rows[scope]
            && forall j :: j in s'.jobs && s'.jobs[j].scope == scope ==> j in s.jobs
  {
    RunInv(Init(start), before);
    var s := Run(Init(start), before);
    CrashInv(s, holder);
    OrphanedRowStays(Step(s, Crash(holder)), after, scope, s.rows[scope]);
  }

  ghost predicate CrashedBy(s: Sys, holder: string, deadline: int) {
    && holder in s.crashed
    && forall k :: HeldBy(s.rows, k, holder) ==> s.rows[k].expiresAt <= deadline
  }

  lemma CrashedStep(s: Sys, a: Action, holder: string, deadline: int)
    requires Inv(s) && CrashedBy(s, holder, deadline)
    ensures CrashedBy(Step(s, a), holder, deadline)
  {
  }

  lemma {:induction false} CrashedRun(s: Sys, actions: seq<Action>, holder: string, deadline: int)
    requires Inv(s) && CrashedBy(s, holder, deadline)
    ensures CrashedBy(Run(s, actions), holder, deadline)
  {
    if actions != [] {
      CrashedRun(s, actions[..|actions| - 1], holder, deadline);
      RunInv(s, actions[..|actions| - 1]);
      CrashedStep(Run(s, actions[..|actions| - 1]), actions[|actions| - 1], holder, deadline);
    }
  }

  /** A crash at `t` wedges nothing: a lease period later every scope whose row still names
      the crashed process can be started by any process that is not running it. */
  lemma CrashedScopeIsClaimable(start: int, before: seq<Action>, holder: string, after: seq<Action>,
                                id: nat, other: string, scope: Scope)
    requires var t := Run(Init(start), before).now;
             var s := Run(Step(Run(Init(start), before), Crash(holder)), after);
             && s.now >= t + DREAM_LEASE_TTL && HeldBy(s.rows, scope, holder)
             && id !in s.jobs && other !in s.crashed && scope !in InflightOf(s, other)
    ensures var s := Run(Step(Run(Init(start), before), Crash(holder)), after);
            var s' := Step(s, Start(id, other, scope, Answers));
            IsRunning(s', id) && s'.jobs[id].scope == scope && HeldBy(s'.rows, scope, other)
  {
    var s0 := Run(Init(start), before);
    RunInv(Init(start), before);
    var s1 := Step(s0, Crash(holder));
    StepInv(s0, Crash(holder));
    CrashedRun(s1, after, holder, s0.now + DREAM_LEASE_TTL);
  }

  /** And every job of a live process can end: by its own finish, or by draining once it has
      been cancelled. */
  lemma EveryJobCanEnd(s: Sys, id: nat)
    requires id in s.jobs
    ensures s.jobs[id].state.Running? ==> id !in Step(s, Finish(id, Answers)).jobs
    ensures s.jobs[id].state.Draining? ==> id !in Step(s, Drained(id)).jobs
    ensures s.jobs[id].state.Queued? ==>
              id !in Step(Step(s, Begin(id)), Finish(id, Answers)).jobs && id !in Step(s, Cancel(id)).jobs
  {
  }
}
