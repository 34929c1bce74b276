/** One-time setup tokens and the API keys they are exchanged for: the in-memory store, and
    the durable store in which every statement or commit is a step other callers can come
    between.  Raw secrets are compared through their hashes; identifiers are unique.  Times
    are integer microseconds, compared as the texts they are stored as. */
module SetupTokens {
  import opened Common

  const SECOND: int := 1_000_000

  datatype Token = Token(
    tokenHash: string, tenantId: string, projectId: string, agentScope: string, expiresAt: int,
    consumedAt: Option<int>, consumedKeyId: Option<string>, revokedAt: Option<int>, revokedBy: Option<string>)

  /** `agentIds` holds the agents a key may act for, `None` being the shared scope; an empty
      set would mean any agent. */
  datatype Key = Key(
    tenantId: string, principalId: string, projectIds: set<string>, agentIds: set<Option<string>>,
    createdAt: int, revokedAt: Option<int>, revokedBy: Option<string>)

  datatype KeyRecord = KeyRecord(tenantId: string, projectId: string, name: string, agentScope: string,
                                 createdVia: string)

  datatype Store = Store(tokens: map<string, Token>, keys: map<string, Key>, metadata: map<string, KeyRecord>)

  // ---- the stored time texts ----

  /** Where a time's text sorts within its second: the fraction is left out when it is zero,
      and the closing "Z" of a whole second sorts after the "." of a fraction. */
  function FractionRank(t: int): int {
    if t % SECOND == 0 then SECOND else t % SECOND
  }

  /** The text of `a` is greater than the text of `b`. */
  predicate TextAfter(a: int, b: int) {
    a / SECOND > b / SECOND || (a / SECOND == b / SECOND && FractionRank(a) > FractionRank(b))
  }

  // ---- what each statement does ----

  predicate Known(st: Store, tokenId: string, hash: string) {
    tokenId in st.tokens && st.tokens[tokenId].tokenHash == hash
  }

  predicate Exchangeable(st: Store, tokenId: string, now: int) {
    && tokenId in st.tokens
    && st.tokens[tokenId].consumedAt.None?
    && st.tokens[tokenId].revokedAt.None?
    && TextAfter(st.tokens[tokenId].expiresAt, now)
  }

  predicate Live(st: Store, keyId: string) {
    keyId in st.keys && st.keys[keyId].revokedAt.None?
  }

  function Coalesce<T>(a: Option<T>, b: Option<T>): Option<T> {
    if a.Some? then a else b
  }

  function Consume(st: Store, tokenId: string, now: int): Store
    requires tokenId in st.tokens
  {
    st.(tokens := st.tokens[tokenId := st.tokens[tokenId].(consumedAt := Some(now))])
  }

  function RecordKey(st: Store, tokenId: string, keyId: string): Store
    requires tokenId in st.tokens
  {
    st.(tokens := st.tokens[tokenId := st.tokens[tokenId].(consumedKeyId := Some(keyId))])
  }

  function RevokeToken(st: Store, tokenId: string, actor: Option<string>, now: int): Store
    requires tokenId in st.tokens
  {
    var token := st.tokens[tokenId];
    st.(tokens := st.tokens[tokenId := token.(revokedAt := Coalesce(token.revokedAt, Some(now)),
                                              revokedBy := Coalesce(token.revokedBy, actor))])
  }

  /** A blank scope is the shared one. */
  function ScopeName(agentScope: string): string {
    if agentScope == "" then "shared" else agentScope
  }

  function AgentIds(agentScope: string): set<Option<string>> {
    if agentScope == "shared" then {None} else {Some(agentScope)}
  }

  function KeyFor(tenantId: string, projectId: string, agentScope: string, now: int): Key {
    Key(tenantId, ScopeName(agentScope), {projectId}, AgentIds(ScopeName(agentScope)), now, None, None)
  }

  /** The check of a request: an empty set of agents restricts nothing. */
  predicate Admits(key: Key, agent: Option<string>) {
    key.agentIds == {} || agent in key.agentIds
  }

  /** The one agent a token's scope stands for; the shared scope is no agent at all. */
  ghost predicate AdmitsOnly(key: Key, agentScope: string) {
    forall agent :: Admits(key, agent) <==>
      agent == if agentScope == "" || agentScope == "shared" then None else Some(agentScope)
  }

  function InsertKey(st: Store, keyId: string, key: Key): Store {
    st.(keys := st.keys[keyId := key])
  }

  function RecordFor(token: Token, tokenId: string): KeyRecord {
    KeyRecord(token.tenantId, token.projectId, "setup-" + tokenId, ScopeName(token.agentScope), "setup")
  }

  function InsertMetadata(st: Store, keyId: string, record: KeyRecord): Store {
    st.(metadata := st.metadata[keyId := record])
  }

  function RevokeKey(st: Store, keyId: string, actor: Option<string>, now: int): Store
    requires keyId in st.keys
  {
    var key := st.keys[keyId];
    st.(keys := st.keys[keyId := key.(revokedAt := Coalesce(key.revokedAt, Some(now)),
                                      revokedBy := Coalesce(key.revokedBy, actor))])
  }

  // ---- the in-memory store ----

  /** A whole exchange with nothing in between. */
  function Exchanged(st: Store, tokenId: string, now: int, keyId: string, mintedAt: int): Store
    requires tokenId in st.tokens
  {
    var token := st.tokens[tokenId];
    var minted := InsertKey(Consume(st, tokenId, now), keyId,
                            KeyFor(token.tenantId, token.projectId, token.agentScope, mintedAt));
    RecordKey(InsertMetadata(minted, keyId, RecordFor(token, tokenId)), tokenId, keyId)
  }

  class HostedApiKeyStore {
    var keys: map<string, Key>
    var controlMetadata: map<string, KeyRecord>
    var setupTokens: map<string, Token>

    function Contents(): Store
      reads this
    {
      Store(setupTokens, keys, controlMetadata)
    }

    constructor ()
      ensures Contents() == Store(map[], map[], map[])
    {
      keys, controlMetadata, setupTokens := map[], map[], map[];
    }

    method MintControlPlaneKey(tenantId: string, projectId: string, name: string, agentScope: string,
                               createdVia: string, keyId: string, now: int)
      modifies this
      ensures Contents() ==
              InsertMetadata(InsertKey(old(Contents()), keyId, KeyFor(tenantId, projectId, agentScope, now)),
                             keyId, KeyRecord(tenantId, projectId, name, ScopeName(agentScope), createdVia))
      ensures AdmitsOnly(keys[keyId], agentScope)
    {
      var scope := if agentScope == "" then "shared" else agentScope;
      var agentIds := if scope == "shared" then {None} else {Some(scope)};
      keys := keys[keyId := Key(tenantId, scope, {projectId}, agentIds, now, None, None)];
      controlMetadata := controlMetadata[keyId := KeyRecord(tenantId, projectId, name, scope, createdVia)];
    }

    /** `keyId` is the fresh identifier the store would draw; a refusal draws none. */
    method ExchangeSetupToken(tokenId: string, tokenHash: string, now: int, keyId: string, mintedAt: int)
      returns (r: Option<string>)
      modifies this
      ensures r.Some? <==> Known(old(Contents()), tokenId, tokenHash) && Exchangeable(old(Contents()), tokenId, now)
      ensures r.Some? ==> r == Some(keyId) && Contents() == Exchanged(old(Contents()), tokenId, now, keyId, mintedAt)
      ensures r.None? ==> Contents() == old(Contents())
      ensures r.Some? ==> AdmitsOnly(keys[keyId], old(setupTokens)[tokenId].agentScope)
    {
      if tokenId !in setupTokens || setupTokens[tokenId].tokenHash != tokenHash {
        return None;
      }
      var stored := setupTokens[tokenId];
      if stored.consumedAt.Some? || stored.revokedAt.Some? || !TextAfter(stored.expiresAt, now) {
        return None;
      }
      setupTokens := setupTokens[tokenId := stored.(consumedAt := Some(now))];
      MintControlPlaneKey(stored.tenantId, stored.projectId, "setup-" + tokenId, stored.agentScope, "setup", keyId,
                          mintedAt);
      setupTokens := setupTokens[tokenId := setupTokens[tokenId].(consumedKeyId := Some(keyId))];
      r := Some(keyId);
    }

    method RevokeSetupToken(tenantId: string, projectId: string, tokenId: string, actor: Option<string>, now: int)
      returns (known: bool, newlyRevoked: bool)
      modifies this
      ensures known <==> tokenId in old(setupTokens)
                         && old(setupTokens)[tokenId].tenantId == tenantId
                         && old(setupTokens)[tokenId].projectId == projectId
      ensures Contents() == if known then RevokeToken(old(Contents()), tokenId, actor, now) else old(Contents())
      ensures newlyRevoked <==> known && old(setupTokens)[tokenId].revokedAt.None?
    {
      known, newlyRevoked := false, false;
      if tokenId !in setupTokens {
        return;
      }
      var stored := setupTokens[tokenId];
      if stored.tenantId != tenantId || stored.projectId != projectId {
        return;
      }
      known, newlyRevoked := true, stored.revokedAt.None?;
      setupTokens := setupTokens[tokenId := stored.(
        revokedAt := if stored.revokedAt.Some? then stored.revokedAt else Some(now),
        revokedBy := if stored.revokedBy.Some? then stored.revokedBy else actor)];
    }

    method RevokeApiKey(keyId: string, actor: Option<string>, now: int) returns (known: bool, newlyRevoked: bool)
      modifies this
      ensures known <==> keyId in old(keys)
      ensures Contents() == if known then RevokeKey(old(Contents()), keyId, actor, now) else old(Contents())
      ensures newlyRevoked <==> Live(old(Contents()), keyId)
    {
      known, newlyRevoked := false, false;
      if keyId in keys {
        var stored := keys[keyId];
        known, newlyRevoked := true, stored.revokedAt.None?;
        keys := keys[keyId := stored.(
          revokedAt := if stored.revokedAt.Some? then stored.revokedAt else Some(now),
          revokedBy := if stored.revokedBy.Some? then stored.revokedBy else actor)];
      }
    }
  }

  // ---- the durable store, step by step ----

  /** How an exchange ends; an error may name a key that was left live. */
  datatype Outcome = Returned(keyId: string) | Rejected | Raised(names: Option<string>)

  /** Where an exchange stands: what it does next. */
  datatype Pc =
    | ToSelect
    | ToConsume(row: Token)
    | ToMint(row: Token)
    | ToLoad(row: Token, keyId: string)
    | ToDescribe(row: Token, keyId: string)
    | ToCompensate(keyId: string)
    | ToRecord(keyId: string)
    | Done(outcome: Outcome)

  /** `minted` and `readBack` remember whether the key row was committed and read back, and
      `refused` whether the compensating revoke of an unlisted key was refused by the
      operating system. */
  datatype Call = Call(tokenId: string, hash: string, startedAt: int, pc: Pc,
                       minted: Option<string>, readBack: bool, refused: bool)

  datatype Mint = Mint(tokenId: string, keyId: string, call: nat)

  /** `consumers` and `mints` are history: who consumed each token, and every key minted. */
  datatype Sys = Sys(now: int, store: Store, calls: map<nat, Call>, issued: set<string>,
                     consumers: map<string, nat>, mints: seq<Mint>)

  /** `Vanish` is a key row disappearing under a running exchange. */
  datatype Action =
    | Elapse(delta: nat)
    | Create(tokenId: string, tokenHash: string, tenantId: string, projectId: string, agentScope: string,
             ttlSeconds: int)
    | Revoke(tokenId: string, actor: Option<string>)
    | RevokeApiKey(keyId: string, actor: Option<string>)
    | Vanish(keyId: string)
    | Begin(call: nat, tokenId: string, hash: string)
    | Advance(call: nat, fault: Fault, keyId: string)
    | RefuseRevoke(call: nat)

  function Init(now: int): Sys {
    Sys(now, Store(map[], map[], map[]), map[], {}, map[], [])
  }

  function At(s: Sys, id: nat, pc: Pc): Sys
    requires id in s.calls
  {
    s.(calls := s.calls[id := s.calls[id].(pc := pc)])
  }

  /** A step whose answer leads to `pc` and whose failure ends the exchange. */
  function Unless(fault: Fault, pc: Pc): Pc {
    if fault.Answers? then pc else Done(Raised(None))
  }

  function SelectStep(s: Sys, id: nat, fault: Fault): Sys
    requires id in s.calls
  {
    var call := s.calls[id];
    At(s, id, Unless(fault, if Known(s.store, call.tokenId, call.hash)
                            then ToConsume(s.store.tokens[call.tokenId]) else Done(Rejected)))
  }

  /** The conditional update compares against the clock read when the exchange began. */
  function ConsumeStep(s: Sys, id: nat, row: Token, fault: Fault): Sys
    requires id in s.calls
  {
    var call := s.calls[id];
    var hit := Exchangeable(s.store, call.tokenId, call.startedAt);
    var s' := At(s, id, Unless(fault, if hit then ToMint(row) else Done(Rejected)));
    if hit && !fault.RaisesBefore? then
      s'.(store := Consume(s.store, call.tokenId, call.startedAt), consumers := s.consumers[call.tokenId := id])
    else
      s'
  }

  function MintStep(s: Sys, id: nat, row: Token, fault: Fault, keyId: string): Sys
    requires id in s.calls
  {
    if fault.RaisesBefore? then At(s, id, Done(Raised(None)))
    else
      var call := s.calls[id];
      var key := KeyFor(row.tenantId, row.projectId, row.agentScope, s.now);
      s.(store := InsertKey(s.store, keyId, key),
         issued := s.issued + {keyId},
         mints := s.mints + [Mint(call.tokenId, keyId, id)],
         calls := s.calls[id := call.(pc := Unless(fault, ToLoad(row, keyId)), minted := Some(keyId))])
  }

  function LoadStep(s: Sys, id: nat, row: Token, keyId: string, fault: Fault): Sys
    requires id in s.calls
  {
    if fault.Answers? && keyId in s.store.keys then
      s.(calls := s.calls[id := s.calls[id].(pc := ToDescribe(row, keyId), readBack := true)])
    else
      At(s, id, Done(Raised(None)))
  }

  /** The listing row refers to the key row, so it cannot land once that has vanished. */
  function DescribeStep(s: Sys, id: nat, row: Token, keyId: string, fault: Fault): Sys
    requires id in s.calls
  {
    var lands := !fault.RaisesBefore? && keyId in s.store.keys;
    var s' := At(s, id, if fault.Answers? && lands then ToRecord(keyId) else ToCompensate(keyId));
    if !lands then s'
    else s'.(store := InsertMetadata(s.store, keyId, RecordFor(row, s.calls[id].tokenId)))
  }

  /** The compensating revoke: an unknown key is taken as nothing left to revoke, and any
      other failure is reported naming the key. */
  function CompensateStep(s: Sys, id: nat, keyId: string, fault: Fault): Sys
    requires id in s.calls
  {
    if fault.RaisesBefore? then At(s, id, Done(Raised(Some(keyId))))
    else if keyId !in s.store.keys then At(s, id, Done(Raised(None)))
    else
      At(s, id, Done(Raised(if fault.Answers? then None else Some(keyId)))).(
        store := RevokeKey(s.store, keyId, Some("control-plane-metadata-failure"), s.now))
  }

  /** A file-permission error on the way to that revoke looks like the unknown key: it is
      swallowed, and the key is left as it is. */
  function RefuseStep(s: Sys, id: nat, keyId: string): Sys
    requires id in s.calls
  {
    s.(calls := s.calls[id := s.calls[id].(pc := Done(Raised(None)), refused := keyId !in s.store.metadata)])
  }

  function RecordStep(s: Sys, id: nat, keyId: string, fault: Fault): Sys
    requires id in s.calls
  {
    var s' := At(s, id, Unless(fault, Done(Returned(keyId))));
    if fault.RaisesBefore? || s.calls[id].tokenId !in s.store.tokens then s'
    else s'.(store := RecordKey(s.store, s.calls[id].tokenId, keyId))
  }

  function AdvanceStep(s: Sys, id: nat, fault: Fault, keyId: string): Sys
    requires id in s.calls
  {
    match s.calls[id].pc
    case ToSelect => SelectStep(s, id, fault)
    case ToConsume(row) => ConsumeStep(s, id, row, fault)
    case ToMint(row) => if keyId !in s.issued then MintStep(s, id, row, fault, keyId) else s
    case ToLoad(row, k) => LoadStep(s, id, row, k, fault)
    case ToDescribe(row, k) => DescribeStep(s, id, row, k, fault)
    case ToCompensate(k) => CompensateStep(s, id, k, fault)
    case ToRecord(k) => RecordStep(s, id, k, fault)
    case Done(_) => s
  }

  function CreateStep(s: Sys, tokenId: string, token: Token): Sys {
    if tokenId in s.store.tokens then s
    else s.(store := s.store.(tokens := s.store.tokens[tokenId := token]))
  }

  /** An action that is not enabled changes nothing; key ids and token ids are never reused. */
  function Step(s: Sys, a: Action): Sys {
    match a
    case Elapse(delta) => s.(now := s.now + delta)
    case Create(tokenId, tokenHash, tenantId, projectId, agentScope, ttlSeconds) =>
      var expiresAt := s.now + ttlSeconds * SECOND;
      CreateStep(s, tokenId, Token(tokenHash, tenantId, projectId, ScopeName(agentScope), expiresAt,
                                   None, None, None, None))
    case Revoke(tokenId, actor) =>
      if tokenId in s.store.tokens then s.(store := RevokeToken(s.store, tokenId, actor, s.now)) else s
    case RevokeApiKey(keyId, actor) =>
      if keyId in s.store.keys then s.(store := RevokeKey(s.store, keyId, actor, s.now)) else s
    case Vanish(keyId) => s.(store := s.store.(keys := s.store.keys - {keyId}))
    case Begin(id, tokenId, hash) =>
      if id in s.calls then s
      else s.(calls := s.calls[id := Call(tokenId, hash, s.now, ToSelect, None, false, false)])
    case Advance(id, fault, keyId) => if id in s.calls then AdvanceStep(s, id, fault, keyId) else s
    case RefuseRevoke(id) =>
      if id in s.calls && s.calls[id].pc.ToCompensate? then RefuseStep(s, id, s.calls[id].pc.keyId) else s
  }

  function Run(s: Sys, actions: seq<Action>): Sys {
    if actions == [] then s
    else Step(Run(s, actions[..|actions| - 1]), actions[|actions| - 1])
  }
}
