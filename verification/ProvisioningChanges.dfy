/** What each step may do to a tenant's row, and what a replacement leaves behind it. */
module ProvisioningChanges {
  import opened Common
  import opened Provisioning
  import opened ProvisioningTheorems

  // ---- the steps that change a row ----

  /** The step commits a replacement of this tenant. */
  ghost predicate Commits(s: Sys, a: Action, tenantId: string) {
    && a.AdvanceReplacement? && a.id in s.replacers && s.replacers[a.id].pc.Commit? && !a.fault.RaisesBefore?
    && s.replacers[a.id].tenantId == tenantId
    && (s.replacers[a.id].replacement.Local? ==>
          forall t :: t in s.rows && t != tenantId ==>
            s.rows[t].dbFilename != s.replacers[a.id].replacement.dbFilename)
  }

  /** The step activates this tenant's row, setting the target it carries if it has one. */
  ghost predicate Activates(s: Sys, a: Action, tenantId: string) {
    && a.Advance? && a.id in s.provisioners && s.provisioners[a.id].tenantId == tenantId
    && s.provisioners[a.id].pc.ToActivate? && !a.fault.RaisesBefore?
  }

  ghost predicate Retires(s: Sys, a: Action, tenantId: string)
    requires tenantId in s.rows
  {
    a.Retire? && a.tenantId == tenantId && s.rows[tenantId].retiredAt.None?
  }

  /** A committed replacement moves the file or the target and nothing else but activity and
      generation, an activation lifts the retirement, a retirement deactivates, and no other
      step touches the row. */
  lemma RowStep(env: Env, s: Sys, a: Action, tenantId: string)
    requires tenantId in s.rows
    ensures var s', row := Step(env, s, a), s.rows[tenantId];
            tenantId in s'.rows &&
            if Commits(s, a, tenantId) then
              match s.replacers[a.id].replacement
              case Local(f) => s'.rows[tenantId] == Row(f, true, row.customerTarget, row.generation + 1, row.retiredAt)
              case Remote(dsn) =>
                s'.rows[tenantId] == Row(row.dbFilename, true, Some(dsn), row.generation + 1, row.retiredAt)
            else if Activates(s, a, tenantId) then
              var target := s.provisioners[a.id].pc.target;
              s'.rows[tenantId] == Row(row.dbFilename, true, if target.Some? then target else row.customerTarget,
                                       row.generation, None)
            else if Retires(s, a, tenantId) then
              s'.rows[tenantId] == Row(row.dbFilename, false, row.customerTarget, row.generation, Some(a.now))
            else
              s'.rows[tenantId] == row
  {
    match a
    case Advance(id, fault, drawn, salt) =>
      if id in s.provisioners { AdvanceRow(env, s, id, fault, drawn, salt, tenantId); }
    case AdvanceReplacement(id, fault) =>
    case _ =>
  }

  lemma AdvanceRow(env: Env, s: Sys, id: nat, fault: Fault, drawn: string, salt: nat, tenantId: string)
    requires tenantId in s.rows && id in s.provisioners
    ensures var s', p, row := AdvanceStep(env, s, id, fault, drawn, salt), s.provisioners[id], s.rows[tenantId];
            tenantId in s'.rows &&
            if p.tenantId == tenantId && p.pc.ToActivate? && !fault.RaisesBefore? then
              s'.rows[tenantId] == Row(row.dbFilename, true, if p.pc.target.Some? then p.pc.target
                                                             else row.customerTarget, row.generation, None)
            else s'.rows[tenantId] == row
  {
    match s.provisioners[id].pc
    case ToInsert(_) =>
    case ToTarget(_, _, _) =>
    case ToActivate(_, _) =>
    case _ =>
  }

  /** A row appears inactive, on a file no other row names, with the target that was passed. */
  lemma RowAppears(env: Env, s: Sys, a: Action, tenantId: string)
    requires tenantId !in s.rows && tenantId in Step(env, s, a).rows
    ensures && a.Advance? && a.id in s.provisioners && s.provisioners[a.id].tenantId == tenantId
            && s.provisioners[a.id].pc.ToInsert?
            && var file := s.provisioners[a.id].pc.dbFilename;
               && Step(env, s, a).rows[tenantId] == Row(file, false, s.provisioners[a.id].explicit, 1, None)
               && forall t :: t in s.rows ==> s.rows[t].dbFilename != file
  {
    assert a.Advance? && a.id in s.provisioners;
    match s.provisioners[a.id].pc
    case ToInsert(_) =>
    case _ =>
  }

  // ---- what a replacement leaves ----

  ghost predicate CommitsAt(env: Env, s: Sys, actions: seq<Action>, n: nat, tenantId: string)
    requires n < |actions|
  {
    Commits(Run(env, s, actions[..n]), actions[n], tenantId)
  }

  ghost predicate TargetsAt(env: Env, s: Sys, actions: seq<Action>, n: nat, tenantId: string)
    requires n < |actions|
  {
    var before := Run(env, s, actions[..n]);
    Activates(before, actions[n], tenantId) && before.provisioners[actions[n].id].pc.target.Some?
  }

  /** Between replacements the file and the generation stand still, and so does the target
      until somebody activates the row with another one. */
  lemma {:induction false} NothingElseMoves(env: Env, s: Sys, actions: seq<Action>, tenantId: string)
    requires tenantId in s.rows
    requires forall n :: 0 <= n < |actions| ==> !CommitsAt(env, s, actions, n, tenantId)
    ensures var s' := Run(env, s, actions);
            && tenantId in s'.rows
            && s'.rows[tenantId].dbFilename == s.rows[tenantId].dbFilename
            && s'.rows[tenantId].generation == s.rows[tenantId].generation
            && ((forall n :: 0 <= n < |actions| ==> !TargetsAt(env, s, actions, n, tenantId)) ==>
                  s'.rows[tenantId].customerTarget == s.rows[tenantId].customerTarget)
  {
    if actions != [] {
      var last := |actions| - 1;
      var init := actions[..last];
      forall n | 0 <= n < last
        ensures CommitsAt(env, s, init, n, tenantId) == CommitsAt(env, s, actions, n, tenantId)
        ensures TargetsAt(env, s, init, n, tenantId) == TargetsAt(env, s, actions, n, tenantId)
      {
        assert init[..n] == actions[..n];
      }
      NothingElseMoves(env, s, init, tenantId);
      RowStep(env, Run(env, s, init), actions[last], tenantId);
      assert !CommitsAt(env, s, actions, last, tenantId);
      if forall n :: 0 <= n < |actions| ==> !TargetsAt(env, s, actions, n, tenantId) {
        assert !TargetsAt(env, s, actions, last, tenantId);
        forall n | 0 <= n < last ensures !TargetsAt(env, s, init, n, tenantId) {
          assert !TargetsAt(env, s, actions, n, tenantId);
        }
      }
    }
  }

  /** A committed replacement counts one generation and leaves the tenant on the new database:
      the new file with the target it had, or the new target with the file it had.  The file
      stays until the next replacement, the target until the next one or an activation that
      carries a target. */
  lemma ReplacementStands(env: Env, before: seq<Action>, commit: Action, after: seq<Action>, tenantId: string)
    requires var s := Run(env, Init(), before); tenantId in s.rows && Commits(s, commit, tenantId)
    requires var s1 := Step(env, Run(env, Init(), before), commit);
             forall n :: 0 <= n < |after| ==> !CommitsAt(env, s1, after, n, tenantId)
    ensures var s := Run(env, Init(), before);
            var replacement, row := s.replacers[commit.id].replacement, s.rows[tenantId];
            var s1 := Step(env, s, commit);
            var s' := Run(env, s1, after);
            var target := if replacement.Remote? then Some(replacement.dsn) else row.customerTarget;
            && tenantId in s1.rows && s1.rows[tenantId].active && s1.rows[tenantId].customerTarget == target
            && tenantId in s'.rows && s'.rows[tenantId].generation == row.generation + 1
            && s'.rows[tenantId].dbFilename == (if replacement.Local? then replacement.dbFilename else row.dbFilename)
            && ((forall n :: 0 <= n < |after| ==> !TargetsAt(env, s1, after, n, tenantId)) ==>
                  s'.rows[tenantId].customerTarget == target)
  {
    var s := Run(env, Init(), before);
    RowStep(env, s, commit, tenantId);
    NothingElseMoves(env, Step(env, s, commit), after, tenantId);
  }

  // ---- which target an activation carries ----

  /** What a provisioner may carry to its activation: the target it was given, or one the
      factory made for this tenant, or nothing to set. */
  ghost predicate Carries(env: Env, s: Sys, p: Provisioner, target: Option<string>) {
    && (p.explicit.Some? ==> target == p.explicit)
    && (p.explicit.None? && target.Some? ==>
          && env.hasFactory && p.tenantId in s.minted
          && exists salt :: env.factory(p.tenantId, salt) == target.value)
  }

  ghost predicate CarryOk(env: Env, s: Sys, p: Provisioner) {
    match p.pc
    case ToTarget(_, _, keep) => keep ==> p.explicit.None?
    case ToInit(_, target) => Carries(env, s, p, target)
    case ToActivate(_, target) => Carries(env, s, p, target)
    case _ => true
  }

  ghost predicate AllCarry(env: Env, s: Sys) {
    forall id :: id in s.provisioners ==> CarryOk(env, s, s.provisioners[id])
  }

  lemma TargetCarries(env: Env, s: Sys, id: nat, fault: Fault, salt: nat)
    requires id in s.provisioners && s.provisioners[id].pc.ToTarget? && CarryOk(env, s, s.provisioners[id])
    ensures var s' := TargetStep(env, s, id, fault, salt);
            id in s'.provisioners && CarryOk(env, s', s'.provisioners[id])
  {
  }

  lemma OneCarries(env: Env, s: Sys, id: nat, fault: Fault, drawn: string, salt: nat)
    requires id in s.provisioners && CarryOk(env, s, s.provisioners[id])
    ensures var s' := AdvanceStep(env, s, id, fault, drawn, salt);
            && id in s'.provisioners && CarryOk(env, s', s'.provisioners[id])
            && s.minted <= s'.minted
            && forall c :: c in s'.provisioners && c != id ==>
                 c in s.provisioners && s'.provisioners[c] == s.provisioners[c]
  {
    match s.provisioners[id].pc
    case ToTarget(_, _, _) => TargetCarries(env, s, id, fault, salt);
    case ToInsert(_) =>
    case _ =>
  }

  lemma StepCarries(env: Env, s: Sys, a: Action)
    requires AllCarry(env, s)
    ensures AllCarry(env, Step(env, s, a))
  {
    if a.Advance? && a.id in s.provisioners {
      OneCarries(env, s, a.id, a.fault, a.drawn, a.salt);
    } else {
      var s' := Step(env, s, a);
      forall c | c in s'.provisioners ensures CarryOk(env, s', s'.provisioners[c]) {
        assert c in s.provisioners ==> CarryOk(env, s, s.provisioners[c]);
      }
    }
  }

  lemma {:induction false} RunCarries(env: Env, s: Sys, actions: seq<Action>)
    requires AllCarry(env, s)
    ensures AllCarry(env, Run(env, s, actions))
  {
    if actions != [] {
      RunCarries(env, s, actions[..|actions| - 1]);
      StepCarries(env, Run(env, s, actions[..|actions| - 1]), actions[|actions| - 1]);
    }
  }

  /** In every run an activation sets the target its caller was given, or one the factory made
      for this tenant, or leaves the row's own. */
  lemma ActivationTargets(env: Env, actions: seq<Action>, id: nat)
    requires var s := Run(env, Init(), actions); id in s.provisioners && s.provisioners[id].pc.ToActivate?
    ensures var s := Run(env, Init(), actions);
            var p := s.provisioners[id];
            && (p.explicit.Some? ==> p.pc.target == p.explicit)
            && (p.explicit.None? && p.pc.target.Some? ==>
                  && env.hasFactory && p.tenantId in s.minted
                  && exists salt :: env.factory(p.tenantId, salt) == p.pc.target.value)
  {
    RunCarries(env, Init(), actions);
    assert CarryOk(env, Run(env, Init(), actions), Run(env, Init(), actions).provisioners[id]);
  }

  /** A caller without a target that finds a row with one asks for none and leaves it alone;
      finding none, it has the factory make one, if there is a factory. */
  lemma FoundTargetIsKept(env: Env, s: Sys, id: nat, drawn: string, salt: nat)
    requires id in s.provisioners && (s.provisioners[id].pc.ToRead? || s.provisioners[id].pc.ToReread?)
    requires s.provisioners[id].explicit.None? && s.provisioners[id].tenantId in s.rows
    ensures var tenantId := s.provisioners[id].tenantId;
            var row := s.rows[tenantId];
            var s' := Step(env, Step(env, s, Advance(id, Answers, drawn, salt)), Advance(id, Answers, drawn, salt));
            var kept := row.customerTarget.Some? && row.customerTarget.value != "";
            var target := if kept || !env.hasFactory then None else Some(env.factory(tenantId, salt));
            && s'.minted == s.minted + (if kept || !env.hasFactory then {} else {tenantId})
            && id in s'.provisioners
            && s'.provisioners[id].pc == if row.active then ToActivate(row.dbFilename, target)
                                         else ToInit(row.dbFilename, target)
  {
    var p := s.provisioners[id];
    var s1 := Step(env, s, Advance(id, Answers, drawn, salt));
    assert s1 == At(s, id, Existing(p, s.rows[p.tenantId]));
    assert s1.provisioners[id].pc.ToTarget?;
    assert Step(env, s1, Advance(id, Answers, drawn, salt)) == TargetStep(env, s1, id, Answers, salt);
  }

  /** A caller that loses the race to insert takes up the winner's row; one whose insertion
      fails with no row to be found fails. */
  lemma LoserTakesTheRow(env: Env, s: Sys, id: nat, drawn: string, salt: nat)
    requires id in s.provisioners && s.provisioners[id].pc.ToInsert?
    requires s.provisioners[id].tenantId in s.rows || DbTaken(s.rows, s.provisioners[id].pc.dbFilename)
    ensures var go := Advance(id, Answers, drawn, salt);
            var p, s' := s.provisioners[id], Step(env, Step(env, s, go), go);
            && s'.rows == s.rows && s'.minted == s.minted && id in s'.provisioners
            && (p.tenantId !in s.rows ==> s'.provisioners[id].pc == Failed)
            && (p.tenantId in s.rows ==>
                  var row := s.rows[p.tenantId];
                  var kept := p.explicit.None? && row.customerTarget.Some? && row.customerTarget.value != "";
                  s'.provisioners[id].pc == ToTarget(row.dbFilename, !row.active, kept))
  {
    var p, go := s.provisioners[id], Advance(id, Answers, drawn, salt);
    var s1 := Step(env, s, go);
    assert s1 == At(s, id, ToReread);
    assert s1.provisioners[id] == p.(pc := ToReread);
  }

  // ---- a provisioning that nothing disturbs ----

  function Steps(id: nat, salt: nat, n: nat): seq<Action> {
    if n == 0 then [] else Steps(id, salt, n - 1) + [Advance(id, Answers, "", salt)]
  }

  /** The state after so many answered steps of one caller. */
  function Stepped(env: Env, s: Sys, id: nat, salt: nat, n: nat): Sys {
    if n == 0 then s else Step(env, Stepped(env, s, id, salt, n - 1), Advance(id, Answers, "", salt))
  }

  lemma {:induction false} RunSteps(env: Env, s: Sys, id: nat, salt: nat, n: nat)
    ensures Run(env, s, Steps(id, salt, n)) == Stepped(env, s, id, salt, n)
  {
    if n > 0 {
      var before := n - 1;
      RunSteps(env, s, id, salt, before);
      var last := Advance(id, Answers, "", salt);
      assert (Steps(id, salt, before) + [last])[..|Steps(id, salt, before)|] == Steps(id, salt, before);
    }
  }

  lemma TargetFound(env: Env, s: Sys, id: nat, salt: nat, p: Provisioner, file: string)
    requires id in s.provisioners && s.provisioners[id] == p && p.pc == ToTarget(file, true, false)
    ensures var target := if p.explicit.Some? then p.explicit
                          else if env.hasFactory then Some(env.factory(p.tenantId, salt)) else None;
            Step(env, s, Advance(id, Answers, "", salt)) ==
            s.(provisioners := s.provisioners[id := p.(pc := ToInit(file, target))],
               minted := s.minted + (if p.explicit.None? && env.hasFactory then {p.tenantId} else {}))
  {
    assert s.minted + {} == s.minted;
  }

  lemma FileInitialised(env: Env, s: Sys, id: nat, salt: nat, p: Provisioner, file: string, target: Option<string>)
    requires id in s.provisioners && s.provisioners[id] == p && p.pc == ToInit(file, target)
    ensures Step(env, s, Advance(id, Answers, "", salt)) ==
            s.(provisioners := s.provisioners[id := p.(pc := ToActivate(file, target))],
               initialised := s.initialised + {file})
  {
  }

  lemma RowActivated(env: Env, s: Sys, id: nat, salt: nat, p: Provisioner, file: string, target: Option<string>)
    requires id in s.provisioners && s.provisioners[id] == p && p.pc == ToActivate(file, target) && p.tenantId in s.rows
    ensures var row := s.rows[p.tenantId];
            Step(env, s, Advance(id, Answers, "", salt)) ==
            s.(provisioners := s.provisioners[id := p.(pc := ToReturn(file))],
               rows := s.rows[p.tenantId := Row(row.dbFilename, true, if target.Some? then target
                                                                      else row.customerTarget, row.generation, None)])
  {
  }

  lemma TenantReturned(env: Env, s: Sys, id: nat, salt: nat, p: Provisioner, file: string)
    requires id in s.provisioners && s.provisioners[id] == p && p.pc == ToReturn(file) && p.tenantId in s.rows
    ensures Step(env, s, Advance(id, Answers, "", salt)) ==
            s.(provisioners := s.provisioners[id :=
                 p.(pc := Done(HostedTenant(file, s.rows[p.tenantId].customerTarget)))])
  {
  }

  lemma RowInserted(env: Env, s: Sys, id: nat, salt: nat, p: Provisioner, file: string)
    requires id in s.provisioners && s.provisioners[id] == p && p.pc == ToInsert(file)
    requires p.tenantId !in s.rows && !DbTaken(s.rows, file)
    ensures Step(env, s, Advance(id, Answers, "", salt)) ==
            s.(provisioners := s.provisioners[id := p.(pc := ToTarget(file, true, false))],
               rows := s.rows[p.tenantId := Row(file, false, p.explicit, 1, None)])
  {
  }

  lemma ProvisionFromInsert(env: Env, s: Sys, id: nat, salt: nat, p: Provisioner, file: string)
    requires id in s.provisioners && s.provisioners[id] == p && p.pc == ToInsert(file)
    requires p.tenantId !in s.rows && !DbTaken(s.rows, file)
    ensures var s' := Stepped(env, s, id, salt, 5);
            var target := if p.explicit.Some? then p.explicit
                          else if env.hasFactory then Some(env.factory(p.tenantId, salt)) else None;
            && s'.rows == s.rows[p.tenantId := Row(file, true, target, 1, None)]
            && s'.initialised == s.initialised + {file}
            && s'.minted == s.minted + (if p.explicit.None? && env.hasFactory then {p.tenantId} else {})
            && id in s'.provisioners && s'.provisioners[id].pc == Done(HostedTenant(file, target))
  {
    var target := if p.explicit.Some? then p.explicit
                  else if env.hasFactory then Some(env.factory(p.tenantId, salt)) else None;
    var go := Advance(id, Answers, "", salt);
    RowInserted(env, s, id, salt, p, file);
    var s1 := Step(env, s, go);
    TargetFound(env, s1, id, salt, p.(pc := ToTarget(file, true, false)), file);
    var s2 := Step(env, s1, go);
    FileInitialised(env, s2, id, salt, p.(pc := ToInit(file, target)), file, target);
    var s3 := Step(env, s2, go);
    RowActivated(env, s3, id, salt, p.(pc := ToActivate(file, target)), file, target);
    var s4 := Step(env, s3, go);
    TenantReturned(env, s4, id, salt, p.(pc := ToReturn(file)), file);
    FiveSteps(env, s, id, salt);
  }

  lemma FiveSteps(env: Env, s: Sys, id: nat, salt: nat)
    ensures var go := Advance(id, Answers, "", salt);
            Stepped(env, s, id, salt, 5) == Step(env, Step(env, Step(env, Step(env, Step(env, s, go), go), go), go), go)
  {
    SteppedNext(env, s, id, salt, 0);
    SteppedNext(env, s, id, salt, 1);
    SteppedNext(env, s, id, salt, 2);
    SteppedNext(env, s, id, salt, 3);
    SteppedNext(env, s, id, salt, 4);
  }

  lemma SteppedNext(env: Env, s: Sys, id: nat, salt: nat, n: nat)
    ensures Stepped(env, s, id, salt, n + 1) == Step(env, Stepped(env, s, id, salt, n), Advance(id, Answers, "", salt))
  {
  }

  /** Without faults or company, provisioning a new tenant draws a file, initialises it, and
      returns it active with the target that was passed or the factory's own. */
  lemma UndisturbedProvision(env: Env, s: Sys, id: nat, tenantId: string, explicit: Option<string>, file: string,
                             salt: nat)
    requires id !in s.provisioners && tenantId !in s.rows && !DbTaken(s.rows, file)
    ensures var s0 := Run(env, s, [Provision(id, tenantId, explicit), Advance(id, Answers, file, salt),
                                   Advance(id, Answers, file, salt)]);
            var s' := Run(env, s0, Steps(id, salt, 5));
            var target := if explicit.Some? then explicit
                          else if env.hasFactory then Some(env.factory(tenantId, salt)) else None;
            && s'.rows == s.rows[tenantId := Row(file, true, target, 1, None)]
            && s'.initialised == s.initialised + {file}
            && s'.minted == s.minted + (if explicit.None? && env.hasFactory then {tenantId} else {})
            && id in s'.provisioners && s'.provisioners[id].pc == Done(HostedTenant(file, target))
  {
    var s0 := Drawn(env, s, id, tenantId, explicit, file, salt);
    RunSteps(env, s0, id, salt, 5);
    ProvisionFromInsert(env, s0, id, salt, Provisioner(tenantId, explicit, ToInsert(file)), file);
  }

  lemma Drawn(env: Env, s: Sys, id: nat, tenantId: string, explicit: Option<string>, file: string, salt: nat)
    returns (s0: Sys)
    requires id !in s.provisioners && tenantId !in s.rows && !DbTaken(s.rows, file)
    ensures s0 == Run(env, s, [Provision(id, tenantId, explicit), Advance(id, Answers, file, salt),
                               Advance(id, Answers, file, salt)])
    ensures s0 == s.(provisioners := s.provisioners[id := Provisioner(tenantId, explicit, ToInsert(file))])
  {
    var draw := Advance(id, Answers, file, salt);
    RunThree(env, s, Provision(id, tenantId, explicit), draw, draw);
    var s1 := Step(env, s, Provision(id, tenantId, explicit));
    var s2 := Step(env, s1, draw);
    assert s1.provisioners[id].pc == ToRead && s2 == At(s1, id, ToAllocate) && s2.provisioners[id].pc == ToAllocate;
    s0 := Step(env, s2, draw);
    assert s0 == At(s2, id, ToInsert(file));
  }

  // ---- faults and file names ----

  /** A step that raises has had its whole effect or none, on the rows, on the files and on
      what the factory was asked. */
  lemma RaisedStepsLandOrNot(env: Env, s: Sys, id: nat, drawn: string, salt: nat)
    requires id in s.provisioners
    ensures var after, answered := Step(env, s, Advance(id, RaisesAfter, drawn, salt)),
                                   Step(env, s, Advance(id, Answers, drawn, salt));
            after.rows == answered.rows && after.initialised == answered.initialised && after.minted == answered.minted
    ensures var before := Step(env, s, Advance(id, RaisesBefore, drawn, salt));
            before.rows == s.rows && before.initialised == s.initialised && before.minted == s.minted
  {
    match s.provisioners[id].pc
    case ToInsert(_) =>
    case ToTarget(_, _, _) =>
    case ToInit(_, _) =>
    case ToActivate(_, _) =>
    case _ =>
  }

  lemma RaisedReplacementsLandOrNot(env: Env, s: Sys, id: nat)
    requires id in s.replacers
    ensures var after, answered := Step(env, s, AdvanceReplacement(id, RaisesAfter)),
                                   Step(env, s, AdvanceReplacement(id, Answers));
            after.rows == answered.rows && after.initialised == answered.initialised
    ensures var before := Step(env, s, AdvanceReplacement(id, RaisesBefore));
            before.rows == s.rows && before.initialised == s.initialised
  {
  }

  /** A file name is drawn again until no row names it. */
  lemma DrawnNameIsFree(env: Env, s: Sys, id: nat, drawn: string, salt: nat)
    requires id in s.provisioners && s.provisioners[id].pc.ToAllocate?
    ensures var s' := Step(env, s, Advance(id, Answers, drawn, salt));
            if exists t :: t in s.rows && s.rows[t].dbFilename == drawn then s' == s
            else id in s'.provisioners && s'.provisioners[id].pc == ToInsert(drawn) && s'.rows == s.rows
  {
  }

  /** And its caller fails, or stops replacing. */
  lemma RaisedStepEnds(env: Env, s: Sys, id: nat, fault: Fault, drawn: string, salt: nat)
    requires id in s.provisioners && !fault.Answers? && !s.provisioners[id].pc.Done?
    requires s.provisioners[id].pc.ToAllocate? ==> !DbTaken(s.rows, drawn)
    requires s.provisioners[id].pc.ToInsert? && fault.RaisesAfter? ==>
               s.provisioners[id].tenantId !in s.rows && !DbTaken(s.rows, s.provisioners[id].pc.dbFilename)
    ensures var s' := AdvanceStep(env, s, id, fault, drawn, salt);
            id in s'.provisioners && s'.provisioners[id].pc == Failed
  {
    match s.provisioners[id].pc
    case ToInsert(_) =>
    case ToTarget(_, _, _) =>
    case _ =>
  }

  lemma RaisedReplacementEnds(s: Sys, id: nat, fault: Fault)
    requires id in s.replacers && !fault.Answers?
    ensures id in ReplaceStep(s, id, fault).replacers && ReplaceStep(s, id, fault).replacers[id].pc == Ended
  {
  }
}
