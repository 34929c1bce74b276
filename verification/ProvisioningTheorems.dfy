/** What survives every interleaving of provisioners, retirements and replacements. */
module ProvisioningTheorems {
  import opened Common
  import opened Provisioning

  // ---- the invariant ----

  ghost predicate FilesUnique(rows: Rows) {
    forall t, u :: t in rows && u in rows && t != u ==> rows[t].dbFilename != rows[u].dbFilename
  }

  ghost predicate ActiveReady(rows: Rows, initialised: set<string>) {
    forall t :: t in rows && rows[t].active ==> rows[t].dbFilename in initialised
  }

  /** The tenant's row names a file that carries the schema. */
  ghost predicate Ready(s: Sys, tenantId: string) {
    tenantId in s.rows && s.rows[tenantId].dbFilename in s.initialised
  }

  /** Ready, or still naming the file this caller has yet to initialise. */
  ghost predicate ReadyOr(s: Sys, tenantId: string, dbFilename: string) {
    tenantId in s.rows && (s.rows[tenantId].dbFilename == dbFilename || s.rows[tenantId].dbFilename in s.initialised)
  }

  ghost predicate ProvisionerOk(s: Sys, p: Provisioner) {
    match p.pc
    case ToTarget(dbFilename, needsInit, _) =>
      ReadyOr(s, p.tenantId, dbFilename) && (!needsInit ==> Ready(s, p.tenantId))
    case ToInit(dbFilename, _) => ReadyOr(s, p.tenantId, dbFilename)
    case ToActivate(_, _) => Ready(s, p.tenantId)
    case _ => true
  }

  ghost predicate ReplacerOk(s: Sys, r: Replacer) {
    match r.pc
    case InitReplacement => Ready(s, r.tenantId)
    case Commit => Ready(s, r.tenantId) && (r.replacement.Local? ==> r.replacement.dbFilename in s.initialised)
    case _ => true
  }

  ghost predicate Inv(s: Sys) {
    && FilesUnique(s.rows)
    && ActiveReady(s.rows, s.initialised)
    && s.minted <= s.rows.Keys
    && (forall id :: id in s.provisioners ==> ProvisionerOk(s, s.provisioners[id]))
    && (forall id :: id in s.replacers ==> ReplacerOk(s, s.replacers[id]))
  }

  /** Rows are never removed, and a row only ever moves to an initialised file. */
  ghost predicate Grows(s: Sys, s': Sys) {
    && s.initialised <= s'.initialised
    && (forall t :: t in s.rows ==>
          && t in s'.rows
          && s'.rows[t].generation >= s.rows[t].generation
          && (s'.rows[t].dbFilename == s.rows[t].dbFilename || s'.rows[t].dbFilename in s'.initialised))
  }

  lemma OthersStayOk(s: Sys, s': Sys)
    requires Inv(s) && Grows(s, s')
    requires forall id :: id in s'.provisioners && !(id in s.provisioners && s'.provisioners[id] == s.provisioners[id])
                ==> ProvisionerOk(s', s'.provisioners[id])
    requires forall id :: id in s'.replacers && !(id in s.replacers && s'.replacers[id] == s.replacers[id])
                ==> ReplacerOk(s', s'.replacers[id])
    ensures forall id :: id in s'.provisioners ==> ProvisionerOk(s', s'.provisioners[id])
    ensures forall id :: id in s'.replacers ==> ReplacerOk(s', s'.replacers[id])
  {
  }

  lemma InsertInv(s: Sys, id: nat, dbFilename: string, fault: Fault)
    requires Inv(s) && id in s.provisioners
    ensures Grows(s, InsertStep(s, id, dbFilename, fault)) && Inv(InsertStep(s, id, dbFilename, fault))
  {
    InsertRows(s, id, dbFilename, fault);
    OthersStayOk(s, InsertStep(s, id, dbFilename, fault));
  }

  lemma InsertRows(s: Sys, id: nat, dbFilename: string, fault: Fault)
    requires Inv(s) && id in s.provisioners
    ensures var s' := InsertStep(s, id, dbFilename, fault);
            && Grows(s, s') && FilesUnique(s'.rows) && ActiveReady(s'.rows, s'.initialised)
            && s'.replacers == s.replacers && s'.minted <= s'.rows.Keys
            && id in s'.provisioners && s'.provisioners == s.provisioners[id := s'.provisioners[id]]
            && ProvisionerOk(s', s'.provisioners[id])
  {
  }

  lemma ActivateInv(s: Sys, id: nat, s': Sys, pc: Pc, target: Option<string>)
    requires Inv(s) && id in s.provisioners && Ready(s, s.provisioners[id].tenantId)
    requires pc.ToReturn? || pc.Failed?
    requires s' == At(s, id, pc).(rows := Activated(s.rows, s.provisioners[id].tenantId, target))
    ensures Grows(s, s') && Inv(s')
  {
    OthersStayOk(s, s');
  }

  lemma TargetInv(env: Env, s: Sys, id: nat, fault: Fault, salt: nat)
    requires Inv(s) && id in s.provisioners && s.provisioners[id].pc.ToTarget?
    ensures Grows(s, TargetStep(env, s, id, fault, salt)) && Inv(TargetStep(env, s, id, fault, salt))
  {
    assert ProvisionerOk(s, s.provisioners[id]);
    OthersStayOk(s, TargetStep(env, s, id, fault, salt));
  }

  /** Steps that move one caller and at most initialise a file. */
  lemma QuietInv(s: Sys, s': Sys)
    requires Inv(s) && s'.rows == s.rows && s'.minted == s.minted && s.initialised <= s'.initialised
    requires forall id :: id in s'.provisioners && !(id in s.provisioners && s'.provisioners[id] == s.provisioners[id])
                ==> ProvisionerOk(s', s'.provisioners[id])
    requires forall id :: id in s'.replacers && !(id in s.replacers && s'.replacers[id] == s.replacers[id])
                ==> ReplacerOk(s', s'.replacers[id])
    ensures Grows(s, s') && Inv(s')
  {
  }

  lemma MoveInv(s: Sys, id: nat, pc: Pc)
    requires Inv(s) && id in s.provisioners && ProvisionerOk(s, s.provisioners[id].(pc := pc))
    ensures Grows(s, At(s, id, pc)) && Inv(At(s, id, pc))
  {
  }

  /** A caller that finds the row takes up its file, initialised already if it is active. */
  lemma ExistingOk(s: Sys, p: Provisioner)
    requires Inv(s) && p.tenantId in s.rows
    ensures ProvisionerOk(s, p.(pc := Existing(p, s.rows[p.tenantId])))
  {
  }

  lemma InitInv(s: Sys, id: nat, dbFilename: string, target: Option<string>, fault: Fault)
    requires Inv(s) && id in s.provisioners && s.provisioners[id].pc == ToInit(dbFilename, target)
    ensures var s' := At(s, id, Unless(fault, ToActivate(dbFilename, target))).(
              initialised := if fault.RaisesBefore? then s.initialised else s.initialised + {dbFilename});
            Grows(s, s') && Inv(s')
  {
    assert ProvisionerOk(s, s.provisioners[id]);
    QuietInv(s, At(s, id, Unless(fault, ToActivate(dbFilename, target))).(
      initialised := if fault.RaisesBefore? then s.initialised else s.initialised + {dbFilename}));
  }

  lemma AdvanceInv(env: Env, s: Sys, id: nat, fault: Fault, drawn: string, salt: nat)
    requires Inv(s) && id in s.provisioners
    ensures Grows(s, AdvanceStep(env, s, id, fault, drawn, salt)) && Inv(AdvanceStep(env, s, id, fault, drawn, salt))
  {
    var p := s.provisioners[id];
    assert ProvisionerOk(s, p);
    match p.pc
    case ToInsert(dbFilename) => InsertInv(s, id, dbFilename, fault);
    case ToTarget(_, _, _) => TargetInv(env, s, id, fault, salt);
    case ToInit(dbFilename, target) => InitInv(s, id, dbFilename, target, fault);
    case ToActivate(dbFilename, target) =>
      if fault.RaisesBefore? {
        MoveInv(s, id, Failed);
      } else {
        ActivateInv(s, id, AdvanceStep(env, s, id, fault, drawn, salt), Unless(fault, ToReturn(dbFilename)), target);
      }
    case ToAllocate => if !DbTaken(s.rows, drawn) { MoveInv(s, id, Unless(fault, ToInsert(drawn))); }
    case ToReturn(dbFilename) => MoveInv(s, id, AdvanceStep(env, s, id, fault, drawn, salt).provisioners[id].pc);
    case Done(_) =>
    case Failed =>
    case _ =>
      if p.tenantId in s.rows {
        ExistingOk(s, p);
      }
      MoveInv(s, id, AdvanceStep(env, s, id, fault, drawn, salt).provisioners[id].pc);
  }

  lemma RepointInv(s: Sys, id: nat)
    requires Inv(s) && id in s.replacers && s.replacers[id].pc.Commit?
    requires Repointable(s.rows, s.replacers[id].tenantId, s.replacers[id].replacement)
    ensures var r := s.replacers[id];
            var s' := ReplaceAt(s, id, Ended).(rows := Repointed(s.rows, r.tenantId, r.replacement));
            Grows(s, s') && Inv(s')
  {
    assert ReplacerOk(s, s.replacers[id]);
    var r := s.replacers[id];
    OthersStayOk(s, ReplaceAt(s, id, Ended).(rows := Repointed(s.rows, r.tenantId, r.replacement)));
  }

  lemma ReplaceInv(s: Sys, id: nat, fault: Fault)
    requires Inv(s) && id in s.replacers
    ensures Grows(s, ReplaceStep(s, id, fault)) && Inv(ReplaceStep(s, id, fault))
  {
    var r := s.replacers[id];
    assert ReplacerOk(s, r);
    if r.pc.Commit? && !fault.RaisesBefore? && Repointable(s.rows, r.tenantId, r.replacement) {
      RepointInv(s, id);
    } else {
      QuietInv(s, ReplaceStep(s, id, fault));
    }
  }

  lemma StepInv(env: Env, s: Sys, a: Action)
    requires Inv(s)
    ensures Grows(s, Step(env, s, a)) && Inv(Step(env, s, a))
  {
    match a
    case Provision(id, _, _) => QuietInv(s, Step(env, s, a));
    case Advance(id, fault, drawn, salt) => if id in s.provisioners { AdvanceInv(env, s, id, fault, drawn, salt); }
    case Retire(_, _) => OthersStayOk(s, Step(env, s, a));
    case Replace(id, _, _) => QuietInv(s, Step(env, s, a));
    case AdvanceReplacement(id, fault) => if id in s.replacers { ReplaceInv(s, id, fault); }
  }

  lemma {:induction false} RunInv(env: Env, s: Sys, actions: seq<Action>)
    requires Inv(s)
    ensures Grows(s, Run(env, s, actions)) && Inv(Run(env, s, actions))
  {
    if actions != [] {
      RunInv(env, s, actions[..|actions| - 1]);
      StepInv(env, Run(env, s, actions[..|actions| - 1]), actions[|actions| - 1]);
    }
  }

  // ---- the theorems ----

  /** In every reachable state each active row names an initialised file, no two tenants
      share a file, and the factory has only been asked for tenants that have a row. */
  lemma ActiveRowsAreInitialised(env: Env, actions: seq<Action>)
    ensures var s := Run(env, Init(), actions);
            && (forall t :: t in s.rows && s.rows[t].active ==> s.rows[t].dbFilename in s.initialised)
            && (forall t, u :: t in s.rows && u in s.rows && t != u ==> s.rows[t].dbFilename != s.rows[u].dbFilename)
            && (forall t :: t in s.minted ==> t in s.rows)
  {
    RunInv(env, Init(), actions);
  }

  lemma {:induction false} RunAppend(env: Env, s: Sys, a: seq<Action>, b: seq<Action>)
    ensures Run(env, s, a + b) == Run(env, Run(env, s, a), b)
  {
    if b == [] {
      assert a + b == a;
    } else {
      ConcatLast(a, b);
      RunAppend(env, s, a, b[..|b| - 1]);
    }
  }

  /** A tenant's one row outlives everything that can happen after it. */
  lemma RowsOutliveEverything(env: Env, before: seq<Action>, after: seq<Action>, tenantId: string)
    requires tenantId in Run(env, Init(), before).rows
    ensures var s, s' := Run(env, Init(), before), Run(env, Init(), before + after);
            && tenantId in s'.rows && s'.rows[tenantId].generation >= s.rows[tenantId].generation
            && (s'.rows[tenantId].dbFilename == s.rows[tenantId].dbFilename
                || s'.rows[tenantId].dbFilename in s'.initialised)
  {
    RunAppend(env, Init(), before, after);
    RunInv(env, Init(), before);
    RunInv(env, Run(env, Init(), before), after);
  }

  // ---- concurrent provisioners of one tenant agree ----

  /** No explicit target and no replacement for this tenant. */
  predicate Plain(a: Action, tenantId: string) {
    && (a.Provision? && a.tenantId == tenantId ==> a.explicit.None?)
    && (a.Replace? ==> a.tenantId != tenantId)
  }

  /** Every call of the factory for this tenant gives the same target. */
  ghost predicate Deterministic(env: Env, tenantId: string, target: Option<string>) {
    if env.hasFactory then target.Some? && forall salt :: env.factory(tenantId, salt) == target.value
    else target.None?
  }

  ghost predicate Takes(s: Sys, tenantId: string, dbFilename: string) {
    tenantId in s.rows && s.rows[tenantId].dbFilename == dbFilename
  }

  ghost predicate Agrees(s: Sys, p: Provisioner, target: Option<string>) {
    && p.explicit.None?
    && match p.pc
       case ToTarget(dbFilename, _, keep) =>
         Takes(s, p.tenantId, dbFilename) && (keep ==> s.rows[p.tenantId].customerTarget == target)
       case ToInit(dbFilename, t) =>
         Takes(s, p.tenantId, dbFilename) && (t == target || (t.None? && s.rows[p.tenantId].customerTarget == target))
       case ToActivate(dbFilename, t) =>
         Takes(s, p.tenantId, dbFilename) && (t == target || (t.None? && s.rows[p.tenantId].customerTarget == target))
       case ToReturn(dbFilename) => Takes(s, p.tenantId, dbFilename) && s.rows[p.tenantId].customerTarget == target
       case Done(tenant) => Takes(s, p.tenantId, tenant.dbFilename) && tenant.customerTarget == target
       case _ => true
  }

  ghost predicate AllAgree(s: Sys, tenantId: string, target: Option<string>) {
    && (forall id :: id in s.provisioners && s.provisioners[id].tenantId == tenantId ==>
        Agrees(s, s.provisioners[id], target))
    && (forall id :: id in s.replacers ==> s.replacers[id].tenantId != tenantId)
    && (tenantId in s.rows && s.rows[tenantId].customerTarget.Some? ==> s.rows[tenantId].customerTarget == target)
  }

  /** The tenant keeps its file, and its target only ever becomes the agreed one. */
  ghost predicate Settles(s: Sys, s': Sys, tenantId: string, target: Option<string>) {
    tenantId in s.rows ==>
      && tenantId in s'.rows && s'.rows[tenantId].dbFilename == s.rows[tenantId].dbFilename
      && (s.rows[tenantId].customerTarget == target ==> s'.rows[tenantId].customerTarget == target)
  }

  lemma OthersStillAgree(s: Sys, s': Sys, tenantId: string, target: Option<string>)
    requires AllAgree(s, tenantId, target) && Settles(s, s', tenantId, target)
    requires forall id :: id in s'.provisioners && s'.provisioners[id].tenantId == tenantId ==>
               || (id in s.provisioners && s'.provisioners[id] == s.provisioners[id])
               || Agrees(s', s'.provisioners[id], target)
    requires forall id :: id in s'.replacers ==> s'.replacers[id].tenantId != tenantId
    requires tenantId in s'.rows && s'.rows[tenantId].customerTarget.Some? ==>
               s'.rows[tenantId].customerTarget == target
    ensures AllAgree(s', tenantId, target)
  {
  }

  /** A step of one caller leaves the other callers alone. */
  ghost predicate OnlyMoves(s: Sys, s': Sys, id: nat) {
    && id in s.provisioners && id in s'.provisioners
    && s'.replacers == s.replacers
    && s'.provisioners == s.provisioners[id := s'.provisioners[id]]
    && s'.provisioners[id].tenantId == s.provisioners[id].tenantId
  }

  lemma StayOnlyMoves(s: Sys, id: nat)
    requires id in s.provisioners
    ensures OnlyMoves(s, s, id)
  {
  }

  lemma AdvanceFrame(env: Env, s: Sys, id: nat, fault: Fault, drawn: string, salt: nat)
    requires id in s.provisioners
    ensures OnlyMoves(s, AdvanceStep(env, s, id, fault, drawn, salt), id)
  {
    StayOnlyMoves(s, id);
  }

  /** Nothing done for another tenant touches this tenant's row. */
  lemma AdvanceForeign(env: Env, s: Sys, id: nat, fault: Fault, drawn: string, salt: nat, tenantId: string)
    requires id in s.provisioners && s.provisioners[id].tenantId != tenantId
    ensures var s' := AdvanceStep(env, s, id, fault, drawn, salt);
            && (tenantId in s'.rows <==> tenantId in s.rows)
            && (tenantId in s.rows ==> s'.rows[tenantId] == s.rows[tenantId])
  {
  }

  lemma AdvanceOwn(env: Env, s: Sys, id: nat, fault: Fault, drawn: string, salt: nat, tenantId: string,
                   target: Option<string>)
    requires AllAgree(s, tenantId, target) && Deterministic(env, tenantId, target)
    requires id in s.provisioners && s.provisioners[id].tenantId == tenantId
    ensures var s' := AdvanceStep(env, s, id, fault, drawn, salt);
            && Settles(s, s', tenantId, target)
            && Agrees(s', s'.provisioners[id], target)
            && (tenantId in s'.rows && s'.rows[tenantId].customerTarget.Some? ==>
                s'.rows[tenantId].customerTarget == target)
  {
    assert Agrees(s, s.provisioners[id], target);
    if env.hasFactory {
      assert env.factory(tenantId, salt) == target.value;
    }
  }

  lemma AdvanceAgrees(env: Env, s: Sys, id: nat, fault: Fault, drawn: string, salt: nat, tenantId: string,
                      target: Option<string>)
    requires AllAgree(s, tenantId, target) && Deterministic(env, tenantId, target) && id in s.provisioners
    ensures AllAgree(Step(env, s, Advance(id, fault, drawn, salt)), tenantId, target)
  {
    var s' := AdvanceStep(env, s, id, fault, drawn, salt);
    AdvanceFrame(env, s, id, fault, drawn, salt);
    if s.provisioners[id].tenantId == tenantId {
      AdvanceOwn(env, s, id, fault, drawn, salt, tenantId, target);
    } else {
      AdvanceForeign(env, s, id, fault, drawn, salt, tenantId);
    }
    OthersStillAgree(s, s', tenantId, target);
  }

  lemma ReplaceAgrees(env: Env, s: Sys, id: nat, fault: Fault, tenantId: string, target: Option<string>)
    requires AllAgree(s, tenantId, target) && id in s.replacers
    ensures AllAgree(ReplaceStep(s, id, fault), tenantId, target)
  {
    var s' := ReplaceStep(s, id, fault);
    assert tenantId in s.rows ==> tenantId in s'.rows && s'.rows[tenantId] == s.rows[tenantId];
    OthersStillAgree(s, s', tenantId, target);
  }

  lemma StepAgrees(env: Env, s: Sys, a: Action, tenantId: string, target: Option<string>)
    requires AllAgree(s, tenantId, target) && Deterministic(env, tenantId, target) && Plain(a, tenantId)
    ensures AllAgree(Step(env, s, a), tenantId, target)
  {
    match a
    case Advance(id, fault, drawn, salt) =>
      if id in s.provisioners { AdvanceAgrees(env, s, id, fault, drawn, salt, tenantId, target); }
    case AdvanceReplacement(id, fault) =>
      if id in s.replacers { ReplaceAgrees(env, s, id, fault, tenantId, target); }
    case _ => OthersStillAgree(s, Step(env, s, a), tenantId, target);
  }

  lemma {:induction false} RunAgrees(env: Env, s: Sys, actions: seq<Action>, tenantId: string, target: Option<string>)
    requires AllAgree(s, tenantId, target) && Deterministic(env, tenantId, target)
    requires forall a :: a in actions ==> Plain(a, tenantId)
    ensures AllAgree(Run(env, s, actions), tenantId, target)
  {
    if actions != [] {
      RunAgrees(env, s, actions[..|actions| - 1], tenantId, target);
      StepAgrees(env, Run(env, s, actions[..|actions| - 1]), actions[|actions| - 1], tenantId, target);
    }
  }

  /** With a deterministic factory, no explicit target and no replacement, all provisioners
      of a tenant that return, return the same file and the same target. */
  lemma ProvisionersConverge(env: Env, actions: seq<Action>, tenantId: string, target: Option<string>, i: nat, j: nat)
    requires Deterministic(env, tenantId, target) && forall a :: a in actions ==> Plain(a, tenantId)
    requires var ps := Run(env, Init(), actions).provisioners;
             && i in ps && ps[i].tenantId == tenantId && ps[i].pc.Done?
             && j in ps && ps[j].tenantId == tenantId && ps[j].pc.Done?
    ensures var s := Run(env, Init(), actions);
            && s.provisioners[i].pc.tenant == s.provisioners[j].pc.tenant
            && tenantId in s.rows
            && s.provisioners[i].pc.tenant == HostedTenant(s.rows[tenantId].dbFilename, target)
  {
    RunAgrees(env, Init(), actions, tenantId, target);
    var s := Run(env, Init(), actions);
    assert Agrees(s, s.provisioners[i], target) && Agrees(s, s.provisioners[j], target);
  }

  // ---- retirement ----

  /** A retired row is never active. */
  ghost predicate RetirementHolds(rows: Rows) {
    forall t :: t in rows && rows[t].retiredAt.Some? ==> !rows[t].active
  }

  /** The action commits a replacement into a row that was retired after it was read. */
  ghost predicate Overtaken(s: Sys, a: Action) {
    && a.AdvanceReplacement? && a.id in s.replacers && s.replacers[a.id].pc.Commit? && !a.fault.RaisesBefore?
    && Repointable(s.rows, s.replacers[a.id].tenantId, s.replacers[a.id].replacement)
    && s.rows[s.replacers[a.id].tenantId].retiredAt.Some?
  }

  lemma AdvanceKeepsRetirement(env: Env, s: Sys, id: nat, fault: Fault, drawn: string, salt: nat)
    requires RetirementHolds(s.rows) && id in s.provisioners
    ensures RetirementHolds(AdvanceStep(env, s, id, fault, drawn, salt).rows)
  {
  }

  lemma ReplaceBreaksRetirementIff(s: Sys, id: nat, fault: Fault)
    requires RetirementHolds(s.rows) && id in s.replacers
    ensures RetirementHolds(ReplaceStep(s, id, fault).rows) <==> !Overtaken(s, AdvanceReplacement(id, fault))
  {
    if Overtaken(s, AdvanceReplacement(id, fault)) {
      var t := s.replacers[id].tenantId;
      assert ReplaceStep(s, id, fault).rows[t].active && ReplaceStep(s, id, fault).rows[t].retiredAt.Some?;
    }
  }

  /** A step leaves every retired row inactive, unless it is a replacement committing over a
      retirement it did not see: that one step revives the tenant with its stamp still on. */
  lemma RetirementHoldsIff(env: Env, s: Sys, a: Action)
    requires RetirementHolds(s.rows)
    ensures RetirementHolds(Step(env, s, a).rows) <==> !Overtaken(s, a)
  {
    match a
    case Advance(id, fault, drawn, salt) =>
      if id in s.provisioners { AdvanceKeepsRetirement(env, s, id, fault, drawn, salt); }
    case AdvanceReplacement(id, fault) =>
      if id in s.replacers { ReplaceBreaksRetirementIff(s, id, fault); }
    case _ =>
  }

  ghost predicate HoldsAt(env: Env, actions: seq<Action>, n: nat)
    requires n <= |actions|
  {
    RetirementHolds(Run(env, Init(), actions[..n]).rows)
  }

  ghost predicate OvertakenAt(env: Env, actions: seq<Action>, n: nat)
    requires n < |actions|
  {
    Overtaken(Run(env, Init(), actions[..n]), actions[n])
  }

  lemma HoldsNextIff(env: Env, actions: seq<Action>, n: nat)
    requires n < |actions| && HoldsAt(env, actions, n)
    ensures HoldsAt(env, actions, n + 1) <==> !OvertakenAt(env, actions, n)
  {
    assert actions[..n + 1][..n] == actions[..n];
    RetirementHoldsIff(env, Run(env, Init(), actions[..n]), actions[n]);
  }

  lemma {:induction false} HoldsUpTo(env: Env, actions: seq<Action>, n: nat)
    requires n <= |actions| && forall m :: 0 <= m < n ==> !OvertakenAt(env, actions, m)
    ensures HoldsAt(env, actions, n)
  {
    if n > 0 {
      HoldsUpTo(env, actions, n - 1);
      HoldsNextIff(env, actions, n - 1);
    }
  }

  /** Over a whole run: retired rows are inactive in every state if and only if no replacement
      ever commits over a retirement it did not see. */
  lemma RetirementHoldsThroughoutIff(env: Env, actions: seq<Action>)
    ensures (forall n :: 0 <= n <= |actions| ==> HoldsAt(env, actions, n))
            <==> (forall n :: 0 <= n < |actions| ==> !OvertakenAt(env, actions, n))
  {
    if forall n :: 0 <= n < |actions| ==> !OvertakenAt(env, actions, n) {
      forall n | 0 <= n <= |actions| ensures HoldsAt(env, actions, n) {
        HoldsUpTo(env, actions, n);
      }
    } else {
      var n :| 0 <= n < |actions| && OvertakenAt(env, actions, n);
      if HoldsAt(env, actions, n) {
        HoldsNextIff(env, actions, n);
      }
    }
  }

  lemma RunThree(env: Env, s: Sys, a: Action, b: Action, c: Action)
    ensures Run(env, s, [a, b, c]) == Step(env, Step(env, Step(env, s, a), b), c)
  {
    assert [a, b, c][..2] == [a, b] && [a, b][..1] == [a] && [a][..0] == [];
    assert Run(env, s, []) == s;
    assert Run(env, s, [a]) == Step(env, s, a);
    assert Run(env, s, [a, b]) == Step(env, Step(env, s, a), b);
  }

  /** A replacement about to commit over a retirement revives the tenant with its stamp still
      set, and retiring it again is refused. */
  lemma RetirementOvertaken(env: Env, s: Sys, id: nat, now: int, later: int)
    requires id in s.replacers && s.replacers[id].pc.Commit?
    requires Retirable(s.rows, s.replacers[id].tenantId)
    requires Repointable(s.rows, s.replacers[id].tenantId, s.replacers[id].replacement)
    ensures var t := s.replacers[id].tenantId;
            var s1 := Step(env, s, Retire(t, now));
            var s2 := Step(env, s1, AdvanceReplacement(id, Answers));
            && t in s1.rows && !s1.rows[t].active && s1.rows[t].retiredAt == Some(now)
            && Overtaken(s1, AdvanceReplacement(id, Answers))
            && t in s2.rows && s2.rows[t].active && s2.rows[t].retiredAt == Some(now)
            && Step(env, s2, Retire(t, later)) == s2
  {
    var t := s.replacers[id].tenantId;
    var s1 := Step(env, s, Retire(t, now));
    assert forall u :: u in s1.rows ==> u in s.rows && s1.rows[u].dbFilename == s.rows[u].dbFilename;
    assert Step(env, s1, AdvanceReplacement(id, Answers)) == ReplaceStep(s1, id, Answers);
  }

  /** One tenant provisioned: its call has read no row, drawn a file name and inserted it. */
  function Inserting(): seq<Action> {
    [Provision(0, "t", None), Advance(0, Answers, "", 0), Advance(0, Answers, "a.db", 0)]
  }

  function Activating(): seq<Action> {
    [Advance(0, Answers, "", 0), Advance(0, Answers, "", 0), Advance(0, Answers, "", 0)]
  }

  /** A replacement of its database, initialised and about to commit. */
  function Replacing(): seq<Action> {
    [Replace(0, "t", Remote("dsn")), AdvanceReplacement(0, Answers), AdvanceReplacement(0, Answers)]
  }

  lemma InsertingRun(env: Env)
    ensures var s := Run(env, Init(), Inserting());
            && s.rows == map[] && s.replacers == map[]
            && s.provisioners == map[0 := Provisioner("t", None, ToInsert("a.db"))]
  {
    var s0 := Init();
    RunThree(env, s0, Provision(0, "t", None), Advance(0, Answers, "", 0), Advance(0, Answers, "a.db", 0));
    var s1 := Step(env, s0, Provision(0, "t", None));
    assert s1.provisioners[0] == Provisioner("t", None, ToRead);
    var s2 := Step(env, s1, Advance(0, Answers, "", 0));
    assert s2.provisioners[0] == Provisioner("t", None, ToAllocate);
  }

  /** Insertion, target and schema, from any state with the row still to be inserted. */
  lemma ActivatingRun(env: Env, s: Sys)
    requires s.rows == map[] && s.provisioners == map[0 := Provisioner("t", None, ToInsert("a.db"))]
    ensures var s' := Run(env, s, Activating());
            && s'.replacers == s.replacers
            && s'.rows == map["t" := Row("a.db", false, None, 1, None)]
            && 0 in s'.provisioners && s'.provisioners[0].tenantId == "t" && s'.provisioners[0].pc.ToActivate?
  {
    var go := Advance(0, Answers, "", 0);
    RunThree(env, s, go, go, go);
    var s1 := Step(env, s, go);
    assert s1 == InsertStep(s, 0, "a.db", Answers);
    assert s1.provisioners[0] == Provisioner("t", None, ToTarget("a.db", true, false));
    var s2 := Step(env, s1, go);
    assert s2 == TargetStep(env, s1, 0, Answers, 0);
    assert s2.provisioners[0].pc.ToInit?;
  }

  lemma ReplacingRun(env: Env, s: Sys)
    requires s.replacers == map[] && "t" in s.rows && s.rows["t"].active
    ensures var s' := Run(env, s, Replacing());
            s'.rows == s.rows && s'.replacers == map[0 := Replacer("t", Remote("dsn"), Commit)]
  {
    var go := AdvanceReplacement(0, Answers);
    RunThree(env, s, Replace(0, "t", Remote("dsn")), go, go);
    var s1 := Step(env, s, Replace(0, "t", Remote("dsn")));
    assert s1.replacers[0] == Replacer("t", Remote("dsn"), ReadRow);
    var s2 := Step(env, s1, go);
    assert s2 == ReplaceStep(s1, 0, Answers);
    assert s2.replacers[0].pc == InitReplacement;
    assert Step(env, s2, go) == ReplaceStep(s2, 0, Answers);
  }

  function AboutToCommit(): seq<Action> {
    Inserting() + Activating() + [Advance(0, Answers, "", 0)] + Replacing()
  }

  lemma AboutToCommitRun(env: Env)
    ensures var s := Run(env, Init(), AboutToCommit());
            && s.replacers == map[0 := Replacer("t", Remote("dsn"), Commit)]
            && Retirable(s.rows, "t") && Repointable(s.rows, "t", Remote("dsn"))
  {
    var activate := Advance(0, Answers, "", 0);
    RunAppend(env, Init(), Inserting() + Activating() + [activate], Replacing());
    RunAppend(env, Init(), Inserting() + Activating(), [activate]);
    RunAppend(env, Init(), Inserting(), Activating());
    InsertingRun(env);
    ActivatingRun(env, Run(env, Init(), Inserting()));
    var s := Run(env, Init(), Inserting() + Activating());
    assert [activate][..0] == [] && Run(env, s, []) == s;
    assert Run(env, s, [activate]) == AdvanceStep(env, s, 0, Answers, "", 0);
    ReplacingRun(env, Run(env, s, [activate]));
  }

  /** It is reachable: a provisioned tenant is retired while its replacement waits to commit,
      and ends up active, still stamped, and refused by every later retirement. */
  lemma RetiredTenantRevived(env: Env, now: int, later: int)
    ensures var s := Run(env, Init(), AboutToCommit() + [Retire("t", now), AdvanceReplacement(0, Answers)]);
            && "t" in s.rows && s.rows["t"].active && s.rows["t"].retiredAt == Some(now)
            && !RetirementHolds(s.rows) && Step(env, s, Retire("t", later)) == s
  {
    var retire, commit := Retire("t", now), AdvanceReplacement(0, Answers);
    RunAppend(env, Init(), AboutToCommit(), [retire, commit]);
    AboutToCommitRun(env);
    var s := Run(env, Init(), AboutToCommit());
    assert [retire, commit][..1] == [retire] && [retire][..0] == [];
    assert Run(env, s, []) == s;
    assert Run(env, s, [retire]) == Step(env, s, retire);
    RetirementOvertaken(env, s, 0, now, later);
  }
}
