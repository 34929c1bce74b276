/** Tenant provisioning, retirement and database replacement.  Every statement or committed
    transaction on the control plane is one step, and any caller may stop between two. */
module Provisioning {
  import opened Common

  datatype Row = Row(dbFilename: string, active: bool, customerTarget: Option<string>, generation: nat,
                     retiredAt: Option<int>)

  type Rows = map<string, Row>

  // ---- what each statement does ----

  predicate DbTaken(rows: Rows, dbFilename: string) {
    exists t | t in rows :: rows[t].dbFilename == dbFilename
  }

  function Inserted(rows: Rows, tenantId: string, dbFilename: string, target: Option<string>): Rows {
    rows[tenantId := Row(dbFilename, false, target, 1, None)]
  }

  function Activated(rows: Rows, tenantId: string, target: Option<string>): Rows {
    if tenantId !in rows then rows
    else
      var row := rows[tenantId];
      rows[tenantId := row.(active := true, retiredAt := None,
                            customerTarget := if target.Some? then target else row.customerTarget)]
  }

  predicate Retirable(rows: Rows, tenantId: string) {
    tenantId in rows && rows[tenantId].retiredAt.None?
  }

  function Retired(rows: Rows, tenantId: string, now: int): Rows
    requires tenantId in rows
  {
    rows[tenantId := rows[tenantId].(active := false, retiredAt := Some(now))]
  }

  /** A replacement is a customer database file, or the address of a remote database. */
  datatype Replacement = Local(dbFilename: string) | Remote(dsn: string)

  predicate FileTakenByOther(rows: Rows, tenantId: string, dbFilename: string) {
    exists t | t in rows :: t != tenantId && rows[t].dbFilename == dbFilename
  }

  predicate Repointable(rows: Rows, tenantId: string, replacement: Replacement) {
    tenantId in rows && (replacement.Local? ==> !FileTakenByOther(rows, tenantId, replacement.dbFilename))
  }

  function Repointed(rows: Rows, tenantId: string, replacement: Replacement): Rows
    requires tenantId in rows
  {
    var row := rows[tenantId].(active := true, generation := rows[tenantId].generation + 1);
    rows[tenantId := match replacement
                     case Local(dbFilename) => row.(dbFilename := dbFilename)
                     case Remote(dsn) => row.(customerTarget := Some(dsn))]
  }

  /** The `tenants` table: the tenant id is the primary key and the file name is unique. */
  class TenantTable {
    var rows: Rows

    constructor ()
      ensures rows == map[]
    {
      rows := map[];
    }

    method Insert(tenantId: string, dbFilename: string, target: Option<string>) returns (ok: bool)
      modifies this
      ensures ok <==> tenantId !in old(rows) && !DbTaken(old(rows), dbFilename)
      ensures rows == if ok then Inserted(old(rows), tenantId, dbFilename, target) else old(rows)
    {
      ok := tenantId !in rows && forall t | t in rows :: rows[t].dbFilename != dbFilename;
      if ok {
        rows := rows[tenantId := Row(dbFilename, false, target, 1, None)];
      }
    }

    method Activate(tenantId: string, target: Option<string>)
      modifies this
      ensures rows == Activated(old(rows), tenantId, target)
    {
      if tenantId in rows {
        rows := rows[tenantId := rows[tenantId].(active := true, retiredAt := None)];
        if target.Some? {
          rows := rows[tenantId := rows[tenantId].(customerTarget := target)];
        }
      }
    }

    method Retire(tenantId: string, now: int) returns (ok: bool)
      modifies this
      ensures ok == Retirable(old(rows), tenantId)
      ensures rows == if ok then Retired(old(rows), tenantId, now) else old(rows)
    {
      if tenantId !in rows || rows[tenantId].retiredAt.Some? {
        return false;
      }
      rows := rows[tenantId := rows[tenantId].(active := false, retiredAt := Some(now))];
      ok := true;
    }

    method Repoint(tenantId: string, replacement: Replacement) returns (ok: bool)
      modifies this
      ensures ok == Repointable(old(rows), tenantId, replacement)
      ensures rows == if ok then Repointed(old(rows), tenantId, replacement) else old(rows)
    {
      if tenantId !in rows {
        return false;
      }
      var row := rows[tenantId];
      match replacement
      case Local(dbFilename) =>
        ok := forall t | t in rows :: t == tenantId || rows[t].dbFilename != dbFilename;
        if ok {
          rows := rows[tenantId := row.(dbFilename := dbFilename, active := true, generation := row.generation + 1)];
        }
      case Remote(dsn) =>
        ok := true;
        rows := rows[tenantId := row.(customerTarget := Some(dsn), active := true, generation := row.generation + 1)];
    }
  }

  // ---- every interleaving ----

  /** The optional factory for customer databases; `salt` makes each call its own. */
  datatype Env = Env(hasFactory: bool, factory: (string, nat) -> string)

  datatype HostedTenant = HostedTenant(dbFilename: string, customerTarget: Option<string>)

  /** Where a `provision_tenant` call stands: what it does next. */
  datatype Pc =
    | ToRead
    | ToAllocate
    | ToInsert(dbFilename: string)
    | ToReread
    | ToTarget(dbFilename: string, needsInit: bool, keep: bool)
    | ToInit(dbFilename: string, target: Option<string>)
    | ToActivate(dbFilename: string, target: Option<string>)
    | ToReturn(dbFilename: string)
    | Done(tenant: HostedTenant)
    | Failed

  datatype Provisioner = Provisioner(tenantId: string, explicit: Option<string>, pc: Pc)

  datatype ReplacePc = ReadRow | InitReplacement | Commit | Ended

  datatype Replacer = Replacer(tenantId: string, replacement: Replacement, pc: ReplacePc)

  /** `initialised` is the customer files that carry the schema, `minted` the tenants the
      factory was asked for. */
  datatype Sys = Sys(rows: Rows, initialised: set<string>, minted: set<string>,
                     provisioners: map<nat, Provisioner>, replacers: map<nat, Replacer>)

  datatype Action =
    | Provision(id: nat, tenantId: string, explicit: Option<string>)
    | Advance(id: nat, fault: Fault, drawn: string, salt: nat)
    | Retire(tenantId: string, now: int)
    | Replace(id: nat, tenantId: string, replacement: Replacement)
    | AdvanceReplacement(id: nat, fault: Fault)

  function Init(): Sys {
    Sys(map[], {}, {}, map[], map[])
  }

  function At(s: Sys, id: nat, pc: Pc): Sys
    requires id in s.provisioners
  {
    s.(provisioners := s.provisioners[id := s.provisioners[id].(pc := pc)])
  }

  function Unless(fault: Fault, pc: Pc): Pc {
    if fault.Answers? then pc else Failed
  }

  /** The row already exists: keep its target unless one was passed or it has none. */
  function Existing(p: Provisioner, row: Row): Pc {
    ToTarget(row.dbFilename, !row.active,
             p.explicit.None? && row.customerTarget.Some? && row.customerTarget.value != "")
  }

  predicate AsksFactory(env: Env, p: Provisioner) {
    p.pc.ToTarget? && !p.pc.keep && p.explicit.None? && env.hasFactory
  }

  function TargetStep(env: Env, s: Sys, id: nat, fault: Fault, salt: nat): Sys
    requires id in s.provisioners && s.provisioners[id].pc.ToTarget?
  {
    var p := s.provisioners[id];
    var asks := AsksFactory(env, p);
    var target := if p.pc.keep then None
                  else if asks then Some(env.factory(p.tenantId, salt))
                  else p.explicit;
    var next := if p.pc.needsInit then ToInit(p.pc.dbFilename, target) else ToActivate(p.pc.dbFilename, target);
    At(s, id, Unless(fault, next)).(
      minted := if asks && !fault.RaisesBefore? then s.minted + {p.tenantId} else s.minted)
  }

  function InsertStep(s: Sys, id: nat, dbFilename: string, fault: Fault): Sys
    requires id in s.provisioners
  {
    var p := s.provisioners[id];
    if fault.RaisesBefore? then At(s, id, Failed)
    else if p.tenantId in s.rows || DbTaken(s.rows, dbFilename) then At(s, id, ToReread)
    else At(s, id, Unless(fault, ToTarget(dbFilename, true, false))).(
           rows := Inserted(s.rows, p.tenantId, dbFilename, p.explicit))
  }

  function AdvanceStep(env: Env, s: Sys, id: nat, fault: Fault, drawn: string, salt: nat): Sys
    requires id in s.provisioners
  {
    var p := s.provisioners[id];
    match p.pc
    case ToRead =>
      At(s, id, Unless(fault, if p.tenantId in s.rows then Existing(p, s.rows[p.tenantId]) else ToAllocate))
    case ToAllocate =>
      if DbTaken(s.rows, drawn) then s else At(s, id, Unless(fault, ToInsert(drawn)))
    case ToInsert(dbFilename) => InsertStep(s, id, dbFilename, fault)
    case ToReread =>
      At(s, id, if p.tenantId in s.rows then Unless(fault, Existing(p, s.rows[p.tenantId])) else Failed)
    case ToTarget(_, _, _) => TargetStep(env, s, id, fault, salt)
    case ToInit(dbFilename, target) =>
      At(s, id, Unless(fault, ToActivate(dbFilename, target))).(
        initialised := if fault.RaisesBefore? then s.initialised else s.initialised + {dbFilename})
    case ToActivate(dbFilename, target) =>
      At(s, id, Unless(fault, ToReturn(dbFilename))).(
        rows := if fault.RaisesBefore? then s.rows else Activated(s.rows, p.tenantId, target))
    case ToReturn(dbFilename) =>
      var target := if p.tenantId in s.rows then s.rows[p.tenantId].customerTarget else None;
      At(s, id, Unless(fault, Done(HostedTenant(dbFilename, target))))
    case Done(_) => s
    case Failed => s
  }

  function ReplaceAt(s: Sys, id: nat, pc: ReplacePc): Sys
    requires id in s.replacers
  {
    s.(replacers := s.replacers[id := s.replacers[id].(pc := pc)])
  }

  /** A replacement needs an active row when it starts, and repoints whatever row is there
      when it commits; a failed validation is a replacer that never advances again. */
  function ReplaceStep(s: Sys, id: nat, fault: Fault): Sys
    requires id in s.replacers
  {
    var r := s.replacers[id];
    match r.pc
    case ReadRow =>
      ReplaceAt(s, id, if fault.Answers? && r.tenantId in s.rows && s.rows[r.tenantId].active
                       then InitReplacement else Ended)
    case InitReplacement =>
      var s' := ReplaceAt(s, id, if fault.Answers? then Commit else Ended);
      if fault.RaisesBefore? || r.replacement.Remote? then s'
      else s'.(initialised := s.initialised + {r.replacement.dbFilename})
    case Commit =>
      var s' := ReplaceAt(s, id, Ended);
      if fault.RaisesBefore? || !Repointable(s.rows, r.tenantId, r.replacement) then s'
      else s'.(rows := Repointed(s.rows, r.tenantId, r.replacement))
    case Ended => s
  }

  function Step(env: Env, s: Sys, a: Action): Sys {
    match a
    case Provision(id, tenantId, explicit) =>
      if id in s.provisioners then s
      else s.(provisioners := s.provisioners[id := Provisioner(tenantId, explicit, ToRead)])
    case Advance(id, fault, drawn, salt) =>
      if id in s.provisioners then AdvanceStep(env, s, id, fault, drawn, salt) else s
    case Retire(tenantId, now) =>
      if Retirable(s.rows, tenantId) then s.(rows := Retired(s.rows, tenantId, now)) else s
    case Replace(id, tenantId, replacement) =>
      if id in s.replacers then s
      else s.(replacers := s.replacers[id := Replacer(tenantId, replacement, ReadRow)])
    case AdvanceReplacement(id, fault) => if id in s.replacers then ReplaceStep(s, id, fault) else s
  }

  function Run(env: Env, s: Sys, actions: seq<Action>): Sys {
    if actions == [] then s
    else Step(env, Run(env, s, actions[..|actions| - 1]), actions[|actions| - 1])
  }
}
