/** What a setup token can and cannot mint, over every interleaving of exchanges, revokes,
    expiry and storage faults. */
module SetupTokenTheorems {
  import opened Common
  import opened SetupTokens

  // ---- the invariant ----

  ghost predicate SameToken(a: Token, b: Token) {
    && a.tokenHash == b.tokenHash && a.tenantId == b.tenantId && a.projectId == b.projectId
    && a.agentScope == b.agentScope && a.expiresAt == b.expiresAt
  }

  ghost predicate SameKey(a: Key, b: Key) {
    && a.tenantId == b.tenantId && a.principalId == b.principalId
    && a.projectIds == b.projectIds && a.agentIds == b.agentIds
  }

  /** The key acts for the token's tenant, project and agent scope, and for nothing else. */
  ghost predicate Fits(key: Key, token: Token) {
    && key.tenantId == token.tenantId && key.principalId == ScopeName(token.agentScope)
    && key.projectIds == {token.projectId} && key.agentIds == AgentIds(ScopeName(token.agentScope))
  }

  /** A finished exchange leaves no live key that is neither listed nor named. */
  ghost predicate Accounted(st: Store, keyId: string, outcome: Outcome) {
    keyId in st.metadata || !Live(st, keyId) || outcome == Raised(Some(keyId))
  }

  /** Exactly one exchange got past the conditional update, and it has not minted yet. */
  ghost predicate AboutToMint(s: Sys, id: nat) {
    id in s.calls && s.calls[id].pc.ToMint?
  }

  ghost predicate RowOk(s: Sys, call: Call, row: Token) {
    call.tokenId in s.store.tokens && SameToken(row, s.store.tokens[call.tokenId]) && row.tokenHash == call.hash
  }

  ghost predicate CallOk(s: Sys, id: nat, call: Call) {
    && (call.minted.Some? ==> call.minted.value in s.issued)
    && (call.minted.Some? || call.pc.ToMint? ==>
          && call.tokenId in s.consumers && s.consumers[call.tokenId] == id
          && call.tokenId in s.store.tokens && TextAfter(s.store.tokens[call.tokenId].expiresAt, call.startedAt)
          && s.store.tokens[call.tokenId].tokenHash == call.hash
          && s.store.tokens[call.tokenId].consumedAt == Some(call.startedAt))
    && match call.pc
       case ToSelect => call.minted.None? && !call.readBack && !call.refused
       case ToConsume(row) => call.minted.None? && !call.readBack && !call.refused && RowOk(s, call, row)
       case ToMint(row) => call.minted.None? && !call.readBack && !call.refused && RowOk(s, call, row)
       case ToLoad(row, k) => call.minted == Some(k) && !call.readBack && !call.refused
       case ToDescribe(row, k) => call.minted == Some(k) && !call.refused
       case ToCompensate(k) => call.minted == Some(k) && !call.refused
       case ToRecord(k) => call.minted == Some(k) && !call.refused && k in s.store.metadata
       case Done(o) =>
         && (o.Returned? ==> call.minted == Some(o.keyId) && o.keyId in s.store.metadata)
         && (call.minted.Some? && call.readBack && !call.refused ==> Accounted(s.store, call.minted.value, o))
  }

  ghost predicate MintOk(s: Sys, m: Mint) {
    && m.call in s.calls && s.calls[m.call].minted == Some(m.keyId) && s.calls[m.call].tokenId == m.tokenId
    && m.tokenId in s.store.tokens
    && (m.keyId in s.store.keys ==> Fits(s.store.keys[m.keyId], s.store.tokens[m.tokenId]))
  }

  ghost predicate DistinctMints(mints: seq<Mint>) {
    forall i, j :: 0 <= i < j < |mints| ==> mints[i].tokenId != mints[j].tokenId && mints[i].keyId != mints[j].keyId
  }

  ghost predicate TokenOk(s: Sys, tokenId: string) {
    tokenId in s.consumers <==> tokenId in s.store.tokens && s.store.tokens[tokenId].consumedAt.Some?
  }

  ghost predicate Inv(s: Sys) {
    && (forall id :: id in s.calls ==> CallOk(s, id, s.calls[id]))
    && (forall m :: m in s.mints ==> MintOk(s, m))
    && DistinctMints(s.mints)
    && (forall t :: TokenOk(s, t))
    && (forall k :: k in s.store.keys ==> k in s.issued)
  }

  // ---- what no step undoes ----

  ghost predicate TokensKept(a: Store, b: Store) {
    forall t :: t in a.tokens ==>
      && t in b.tokens && SameToken(a.tokens[t], b.tokens[t])
      && (a.tokens[t].consumedAt.Some? ==> b.tokens[t].consumedAt == a.tokens[t].consumedAt)
  }

  ghost predicate KeysKept(a: Store, b: Store, issued: set<string>) {
    forall k :: k in issued && k in b.keys ==>
      k in a.keys && SameKey(a.keys[k], b.keys[k]) && (a.keys[k].revokedAt.Some? ==> b.keys[k].revokedAt.Some?)
  }

  ghost predicate Grows(s: Sys, s': Sys) {
    && TokensKept(s.store, s'.store)
    && KeysKept(s.store, s'.store, s.issued)
    && s.store.metadata.Keys <= s'.store.metadata.Keys
    && s.issued <= s'.issued
    && (forall t :: t in s.consumers ==> t in s'.consumers && s'.consumers[t] == s.consumers[t])
  }

  lemma CallStaysOk(s: Sys, s': Sys, id: nat, call: Call)
    requires Grows(s, s') && CallOk(s, id, call)
    ensures CallOk(s', id, call)
  {
  }

  lemma MintStaysOk(s: Sys, s': Sys, m: Mint)
    requires Grows(s, s') && MintOk(s, m)
    requires m.keyId in s.issued
    requires m.call in s'.calls && s'.calls[m.call].minted == s.calls[m.call].minted
             && s'.calls[m.call].tokenId == s.calls[m.call].tokenId
    ensures MintOk(s', m)
  {
  }

  /** A step that touches at most one exchange keeps everything said about the others. */
  lemma OthersStayOk(s: Sys, s': Sys, id: nat)
    requires Inv(s) && Grows(s, s')
    requires forall c :: c != id && c in s'.calls ==> c in s.calls && s'.calls[c] == s.calls[c]
    requires id in s'.calls ==> CallOk(s', id, s'.calls[id])
    requires forall c :: c in s.calls ==> c in s'.calls
    requires id in s.calls ==> s'.calls[id].tokenId == s.calls[id].tokenId
                               && (s.calls[id].minted.Some? ==> s'.calls[id].minted == s.calls[id].minted)
    ensures forall c :: c in s'.calls ==> CallOk(s', c, s'.calls[c])
    ensures forall m :: m in s.mints ==> MintOk(s', m)
  {
    forall c | c in s'.calls ensures CallOk(s', c, s'.calls[c]) {
      if c != id {
        CallStaysOk(s, s', c, s.calls[c]);
      }
    }
    forall m | m in s.mints ensures MintOk(s', m) {
      assert CallOk(s, m.call, s.calls[m.call]);
      MintStaysOk(s, s', m);
    }
  }

  // ---- each step of an exchange keeps the invariant ----

  lemma SameStoreGrows(s: Sys, s': Sys)
    requires Inv(s) && s' == s.(calls := s'.calls)
    ensures Grows(s, s')
    ensures forall t :: TokenOk(s', t)
  {
    assert forall t :: TokenOk(s, t) ==> TokenOk(s', t);
  }

  lemma SelectInv(s: Sys, id: nat, fault: Fault)
    requires Inv(s) && id in s.calls && s.calls[id].pc.ToSelect?
    ensures Inv(SelectStep(s, id, fault))
  {
    var s' := SelectStep(s, id, fault);
    SameStoreGrows(s, s');
    assert CallOk(s, id, s.calls[id]);
    OthersStayOk(s, s', id);
  }

  lemma ConsumeGrows(s: Sys, id: nat, row: Token, fault: Fault)
    requires Inv(s) && id in s.calls
    ensures Grows(s, ConsumeStep(s, id, row, fault))
    ensures forall t :: TokenOk(ConsumeStep(s, id, row, fault), t)
  {
    var s', tokenId := ConsumeStep(s, id, row, fault), s.calls[id].tokenId;
    assert TokenOk(s, tokenId);
    forall t ensures TokenOk(s', t) {
      assert TokenOk(s, t);
    }
  }

  lemma ConsumeInv(s: Sys, id: nat, row: Token, fault: Fault)
    requires Inv(s) && id in s.calls && s.calls[id].pc == ToConsume(row)
    ensures Inv(ConsumeStep(s, id, row, fault))
  {
    var s' := ConsumeStep(s, id, row, fault);
    ConsumeGrows(s, id, row, fault);
    assert CallOk(s, id, s.calls[id]);
    OthersStayOk(s, s', id);
  }

  /** The exchange that is about to mint is the token's only consumer, so nothing has been
      minted for the token yet. */
  lemma FirstMint(s: Sys, id: nat, m: Mint)
    requires Inv(s) && AboutToMint(s, id) && m in s.mints
    ensures m.tokenId != s.calls[id].tokenId
  {
  }

  lemma MintGrows(s: Sys, id: nat, row: Token, fault: Fault, keyId: string)
    requires Inv(s) && id in s.calls && keyId !in s.issued
    ensures Grows(s, MintStep(s, id, row, fault, keyId))
    ensures forall t :: TokenOk(MintStep(s, id, row, fault, keyId), t)
  {
    assert forall t :: TokenOk(s, t) ==> TokenOk(MintStep(s, id, row, fault, keyId), t);
  }

  lemma MintKeepsDistinct(s: Sys, id: nat, row: Token, fault: Fault, keyId: string)
    requires Inv(s) && AboutToMint(s, id) && keyId !in s.issued
    ensures DistinctMints(MintStep(s, id, row, fault, keyId).mints)
  {
    forall i | 0 <= i < |s.mints|
      ensures s.mints[i].tokenId != s.calls[id].tokenId && s.mints[i].keyId != keyId
    {
      FirstMint(s, id, s.mints[i]);
      assert MintOk(s, s.mints[i]) && CallOk(s, s.mints[i].call, s.calls[s.mints[i].call]);
    }
  }

  lemma MintInv(s: Sys, id: nat, row: Token, fault: Fault, keyId: string)
    requires Inv(s) && id in s.calls && s.calls[id].pc == ToMint(row) && keyId !in s.issued
    ensures Inv(MintStep(s, id, row, fault, keyId))
  {
    var s' := MintStep(s, id, row, fault, keyId);
    assert CallOk(s, id, s.calls[id]);
    MintGrows(s, id, row, fault, keyId);
    MintKeepsDistinct(s, id, row, fault, keyId);
    OthersStayOk(s, s', id);
    forall m | m in s'.mints ensures MintOk(s', m) {
      assert m in s.mints || m == Mint(s.calls[id].tokenId, keyId, id);
    }
  }

  lemma LoadInv(s: Sys, id: nat, row: Token, keyId: string, fault: Fault)
    requires Inv(s) && id in s.calls && s.calls[id].pc == ToLoad(row, keyId)
    ensures Inv(LoadStep(s, id, row, keyId, fault))
  {
    var s' := LoadStep(s, id, row, keyId, fault);
    SameStoreGrows(s, s');
    assert CallOk(s, id, s.calls[id]);
    OthersStayOk(s, s', id);
  }

  lemma DescribeGrows(s: Sys, id: nat, row: Token, keyId: string, fault: Fault)
    requires Inv(s) && id in s.calls
    ensures Grows(s, DescribeStep(s, id, row, keyId, fault))
    ensures forall t :: TokenOk(DescribeStep(s, id, row, keyId, fault), t)
  {
    assert forall t :: TokenOk(s, t) ==> TokenOk(DescribeStep(s, id, row, keyId, fault), t);
  }

  lemma DescribeInv(s: Sys, id: nat, row: Token, keyId: string, fault: Fault)
    requires Inv(s) && id in s.calls && s.calls[id].pc == ToDescribe(row, keyId)
    ensures Inv(DescribeStep(s, id, row, keyId, fault))
  {
    var s' := DescribeStep(s, id, row, keyId, fault);
    assert CallOk(s, id, s.calls[id]);
    DescribeGrows(s, id, row, keyId, fault);
    OthersStayOk(s, s', id);
  }

  lemma RevokeKeyGrows(s: Sys, s': Sys, keyId: string, actor: Option<string>)
    requires Inv(s) && keyId in s.store.keys
    requires s' == s.(store := RevokeKey(s.store, keyId, actor, s.now), calls := s'.calls)
    ensures Grows(s, s') && !Live(s'.store, keyId)
    ensures forall t :: TokenOk(s', t)
  {
    assert forall t :: TokenOk(s, t) ==> TokenOk(s', t);
  }

  lemma CompensateInv(s: Sys, id: nat, keyId: string, fault: Fault)
    requires Inv(s) && id in s.calls && s.calls[id].pc == ToCompensate(keyId)
    ensures Inv(CompensateStep(s, id, keyId, fault))
  {
    var s' := CompensateStep(s, id, keyId, fault);
    assert CallOk(s, id, s.calls[id]);
    if fault.RaisesBefore? || keyId !in s.store.keys {
      SameStoreGrows(s, s');
    } else {
      RevokeKeyGrows(s, s', keyId, Some("control-plane-metadata-failure"));
    }
    OthersStayOk(s, s', id);
  }

  lemma TokenUpdateGrows(s: Sys, s': Sys, tokenId: string, token: Token)
    requires Inv(s) && tokenId in s.store.tokens
    requires SameToken(s.store.tokens[tokenId], token) && token.consumedAt == s.store.tokens[tokenId].consumedAt
    requires s' == s.(store := s.store.(tokens := s.store.tokens[tokenId := token]), calls := s'.calls)
    ensures Grows(s, s')
    ensures forall t :: TokenOk(s', t)
  {
    assert forall t :: TokenOk(s, t) ==> TokenOk(s', t);
  }

  lemma RecordInv(s: Sys, id: nat, keyId: string, fault: Fault)
    requires Inv(s) && id in s.calls && s.calls[id].pc == ToRecord(keyId)
    ensures Inv(RecordStep(s, id, keyId, fault))
  {
    var s', tokenId := RecordStep(s, id, keyId, fault), s.calls[id].tokenId;
    assert CallOk(s, id, s.calls[id]);
    if fault.RaisesBefore? {
      SameStoreGrows(s, s');
    } else {
      TokenUpdateGrows(s, s', tokenId, s.store.tokens[tokenId].(consumedKeyId := Some(keyId)));
    }
    OthersStayOk(s, s', id);
  }

  lemma AdvanceInv(s: Sys, id: nat, fault: Fault, keyId: string)
    requires Inv(s) && id in s.calls
    ensures Inv(AdvanceStep(s, id, fault, keyId))
  {
    match s.calls[id].pc
    case ToSelect => SelectInv(s, id, fault);
    case ToConsume(row) => ConsumeInv(s, id, row, fault);
    case ToMint(row) => if keyId !in s.issued { MintInv(s, id, row, fault, keyId); }
    case ToLoad(row, k) => LoadInv(s, id, row, k, fault);
    case ToDescribe(row, k) => DescribeInv(s, id, row, k, fault);
    case ToCompensate(k) => CompensateInv(s, id, k, fault);
    case ToRecord(k) => RecordInv(s, id, k, fault);
    case Done(_) =>
  }

  lemma RefuseInv(s: Sys, id: nat, keyId: string)
    requires Inv(s) && id in s.calls && s.calls[id].pc == ToCompensate(keyId)
    ensures Inv(RefuseStep(s, id, keyId))
  {
    var s' := RefuseStep(s, id, keyId);
    SameStoreGrows(s, s');
    assert CallOk(s, id, s.calls[id]);
    OthersStayOk(s, s', id);
  }

  // ---- everything around the exchanges ----

  lemma StoreOnlyInv(s: Sys, s': Sys)
    requires Inv(s) && Grows(s, s') && s'.calls == s.calls && s'.mints == s.mints && s'.store.keys.Keys <= s'.issued
    requires forall t :: TokenOk(s', t)
    ensures Inv(s')
  {
    forall c | c in s'.calls ensures CallOk(s', c, s'.calls[c]) {
      CallStaysOk(s, s', c, s.calls[c]);
    }
    forall m | m in s'.mints ensures MintOk(s', m) {
      assert MintOk(s, m) && CallOk(s, m.call, s.calls[m.call]);
      MintStaysOk(s, s', m);
    }
  }

  lemma BeginInv(s: Sys, id: nat, tokenId: string, hash: string)
    requires Inv(s) && id !in s.calls
    ensures Inv(Step(s, Begin(id, tokenId, hash)))
  {
    var s' := Step(s, Begin(id, tokenId, hash));
    SameStoreGrows(s, s');
    OthersStayOk(s, s', id);
  }

  lemma CreateInv(s: Sys, tokenId: string, token: Token)
    requires Inv(s) && token.consumedAt.None?
    ensures Inv(CreateStep(s, tokenId, token))
  {
    var s' := CreateStep(s, tokenId, token);
    forall t ensures TokenOk(s', t) {
      assert TokenOk(s, t);
    }
    StoreOnlyInv(s, s');
  }

  lemma StepInv(s: Sys, a: Action)
    requires Inv(s)
    ensures Inv(Step(s, a))
  {
    var s' := Step(s, a);
    match a
    case Elapse(_) =>
      assert forall t :: TokenOk(s, t) ==> TokenOk(s', t);
      StoreOnlyInv(s, s');
    case Create(tokenId, tokenHash, tenantId, projectId, agentScope, ttlSeconds) =>
      var expiresAt := s.now + ttlSeconds * SECOND;
      CreateInv(s, tokenId, Token(tokenHash, tenantId, projectId, ScopeName(agentScope), expiresAt,
                                  None, None, None, None));
    case Revoke(tokenId, actor) =>
      if tokenId in s.store.tokens {
        TokenUpdateGrows(s, s', tokenId, RevokeToken(s.store, tokenId, actor, s.now).tokens[tokenId]);
        StoreOnlyInv(s, s');
      }
    case RevokeApiKey(keyId, actor) =>
      if keyId in s.store.keys {
        RevokeKeyGrows(s, s', keyId, actor);
        StoreOnlyInv(s, s');
      }
    case Vanish(keyId) =>
      assert forall t :: TokenOk(s, t) ==> TokenOk(s', t);
      StoreOnlyInv(s, s');
    case Begin(id, tokenId, hash) => if id !in s.calls { BeginInv(s, id, tokenId, hash); }
    case Advance(id, fault, keyId) => if id in s.calls { AdvanceInv(s, id, fault, keyId); }
    case RefuseRevoke(id) =>
      if id in s.calls && s.calls[id].pc.ToCompensate? { RefuseInv(s, id, s.calls[id].pc.keyId); }
  }

  lemma {:induction false} RunInv(s: Sys, actions: seq<Action>)
    requires Inv(s)
    ensures Inv(Run(s, actions))
  {
    if actions != [] {
      RunInv(s, actions[..|actions| - 1]);
      StepInv(Run(s, actions[..|actions| - 1]), actions[|actions| - 1]);
    }
  }

  // ---- the theorems ----

  /** A setup token mints at most one key, in an exchange that presented its hash, consumed it
      and began before it expired; the key carries the token's grant and admits one agent. */
  lemma {:induction false} OneKeyPerToken(start: int, actions: seq<Action>)
    ensures var s := Run(Init(start), actions);
            && DistinctMints(s.mints)
            && forall m :: m in s.mints ==>
                 && m.tokenId in s.store.tokens && m.call in s.calls && s.calls[m.call].tokenId == m.tokenId
                 && s.store.tokens[m.tokenId].tokenHash == s.calls[m.call].hash
                 && s.store.tokens[m.tokenId].consumedAt == Some(s.calls[m.call].startedAt)
                 && TextAfter(s.store.tokens[m.tokenId].expiresAt, s.calls[m.call].startedAt)
                 && s.calls[m.call].startedAt < s.store.tokens[m.tokenId].expiresAt + SECOND
                 && (m.keyId in s.store.keys ==> Fits(s.store.keys[m.keyId], s.store.tokens[m.tokenId]))
  {
    RunInv(Init(start), actions);
    var s := Run(Init(start), actions);
    forall m | m in s.mints
      ensures MintOk(s, m) && TokenOk(s, m.tokenId) && CallOk(s, m.call, s.calls[m.call])
    {
    }
  }

  /** Whatever happens to it later, a minted key admits exactly the token's agent: the shared
      scope admits requests without an agent and no others, never every agent. */
  lemma MintedKeyAdmits(start: int, actions: seq<Action>, m: Mint, agent: Option<string>)
    requires m in Run(Init(start), actions).mints && m.keyId in Run(Init(start), actions).store.keys
    ensures var s := Run(Init(start), actions);
            m.tokenId in s.store.tokens &&
            var scope := s.store.tokens[m.tokenId].agentScope;
            Admits(s.store.keys[m.keyId], agent) <==>
            agent == if scope == "" || scope == "shared" then None else Some(scope)
  {
    OneKeyPerToken(start, actions);
  }

  /** No exchange that starts its conditional update from here on can consume the token. */
  ghost predicate Closed(s: Sys, tokenId: string) {
    tokenId in s.store.tokens && (s.store.tokens[tokenId].consumedAt.Some? || s.store.tokens[tokenId].revokedAt.Some?)
  }

  ghost predicate MintPending(s: Sys, tokenId: string) {
    exists id :: AboutToMint(s, id) && s.calls[id].tokenId == tokenId
  }

  lemma ClosedStays(s: Sys, a: Action, tokenId: string)
    requires Closed(s, tokenId)
    ensures Closed(Step(s, a), tokenId)
  {
  }

  /** A closed token fails the conditional update, so no exchange newly reaches its mint. */
  lemma NotNewlyPending(s: Sys, a: Action, tokenId: string, id: nat)
    requires Closed(s, tokenId) && AboutToMint(Step(s, a), id) && Step(s, a).calls[id].tokenId == tokenId
    ensures AboutToMint(s, id) && s.calls[id].tokenId == tokenId
  {
    if a.Advance? && a.call in s.calls {
      match s.calls[a.call].pc
      case ToConsume(_) =>
      case _ =>
    }
  }

  lemma MintsOnlyWhenPending(s: Sys, a: Action, m: Mint)
    requires m in Step(s, a).mints && m !in s.mints
    ensures MintPending(s, m.tokenId)
  {
    assert a.Advance? && AboutToMint(s, a.call);
  }

  lemma {:induction false} ClosedRun(s: Sys, actions: seq<Action>, tokenId: string)
    requires Closed(s, tokenId) && !MintPending(s, tokenId)
    ensures Closed(Run(s, actions), tokenId) && !MintPending(Run(s, actions), tokenId)
    ensures forall m :: m in Run(s, actions).mints && m.tokenId == tokenId ==> m in s.mints
  {
    if actions != [] {
      var init, a := actions[..|actions| - 1], actions[|actions| - 1];
      ClosedRun(s, init, tokenId);
      var s' := Run(s, init);
      ClosedStays(s', a, tokenId);
      if id :| AboutToMint(Step(s', a), id) && Step(s', a).calls[id].tokenId == tokenId {
        NotNewlyPending(s', a, tokenId, id);
      }
      forall m | m in Step(s', a).mints && m.tokenId == tokenId ensures m in s.mints {
        if m !in s'.mints {
          MintsOnlyWhenPending(s', a, m);
        }
      }
    }
  }

  lemma {:induction false} LongerThanAll(ids: set<string>) returns (n: nat)
    ensures forall x :: x in ids ==> |x| < n
  {
    n := 0;
    if ids != {} {
      var x :| x in ids;
      var m := LongerThanAll(ids - {x});
      n := if |x| < m then m else |x| + 1;
    }
  }

  lemma PendingMints(s: Sys, id: nat)
    requires Inv(s) && AboutToMint(s, id)
    ensures exists actions, m :: m in Run(s, actions).mints && m !in s.mints && m.tokenId == s.calls[id].tokenId
  {
    var n := LongerThanAll(s.issued);
    var keyId := seq(n, _ => 'k');
    assert keyId !in s.issued;
    var actions, m := [Advance(id, Answers, keyId)], Mint(s.calls[id].tokenId, keyId, id);
    assert actions[..0] == [];
    assert m in Run(s, actions).mints;
    forall x | x in s.mints ensures x != m {
      assert MintOk(s, x) && CallOk(s, x.call, s.calls[x.call]);
    }
  }

  /** A consumed or revoked token still mints a key in some continuation exactly when an
      exchange already holds it between its committed consume and its key row.  So a revoke
      stops every exchange but that one, and a failed mint leaves the token spent. */
  lemma MintsAfterClosingIff(start: int, before: seq<Action>, tokenId: string)
    requires Closed(Run(Init(start), before), tokenId)
    ensures var s := Run(Init(start), before);
            MintPending(s, tokenId) <==>
            exists actions, m :: m in Run(s, actions).mints && m !in s.mints && m.tokenId == tokenId
  {
    RunInv(Init(start), before);
    var s := Run(Init(start), before);
    if id :| AboutToMint(s, id) && s.calls[id].tokenId == tokenId {
      PendingMints(s, id);
    } else {
      forall actions, m | m in Run(s, actions).mints && m.tokenId == tokenId ensures m in s.mints {
        ClosedRun(s, actions, tokenId);
      }
    }
  }

  /** An exchange whose key was read back, and whose compensation was not refused, ends with
      the key listed, or no longer live, or named in the error; and a successful one returns
      a listed key. */
  lemma NoOrphanAfterReadBack(start: int, actions: seq<Action>, id: nat)
    requires id in Run(Init(start), actions).calls
    ensures var s := Run(Init(start), actions);
            var call := s.calls[id];
            && (call.pc.Done? && call.readBack && !call.refused && call.minted.Some? ==>
                  Accounted(s.store, call.minted.value, call.pc.outcome))
            && (call.pc.Done? && call.pc.outcome.Returned? ==>
                  call.minted == Some(call.pc.outcome.keyId) && call.pc.outcome.keyId in s.store.metadata)
  {
    RunInv(Init(start), actions);
    var s := Run(Init(start), actions);
    assert CallOk(s, id, s.calls[id]);
  }

  // ---- exactly when a key is orphaned ----

  /** Listing comes after the read-back: a key minted and not read back is unlisted, and its
      exchange is about to read it back or has failed without naming it. */
  ghost predicate CallTidy(st: Store, call: Call) {
    && (call.pc.ToDescribe? || call.pc.ToCompensate? || call.pc.ToRecord? ==> call.readBack)
    && (call.minted.Some? && !call.readBack ==>
          call.minted.value !in st.metadata && (call.pc.ToLoad? || call.pc == Done(Raised(None))))
    && (call.refused ==>
          call.minted.Some? && call.minted.value !in st.metadata && call.pc == Done(Raised(None)))
  }

  ghost predicate OwnKeys(calls: map<nat, Call>) {
    forall i, j :: i in calls && j in calls && i != j && calls[i].minted.Some? ==> calls[i].minted != calls[j].minted
  }

  ghost predicate Tidy(s: Sys) {
    && s.store.metadata.Keys <= s.issued
    && OwnKeys(s.calls)
    && forall id :: id in s.calls ==> CallTidy(s.store, s.calls[id])
  }

  /** Steps that mint and list nothing. */
  lemma MovedTidy(s: Sys, s': Sys, id: nat)
    requires Tidy(s) && id in s.calls && id in s'.calls && s'.calls == s.calls[id := s'.calls[id]]
    requires s'.store.metadata == s.store.metadata && s'.issued == s.issued
    requires s'.calls[id].minted == s.calls[id].minted && CallTidy(s'.store, s'.calls[id])
    ensures Tidy(s')
  {
    forall c | c in s'.calls ensures CallTidy(s'.store, s'.calls[c]) {
      assert c != id ==> CallTidy(s.store, s.calls[c]);
    }
  }

  lemma MintTidy(s: Sys, id: nat, row: Token, fault: Fault, keyId: string)
    requires Inv(s) && Tidy(s) && id in s.calls && s.calls[id].pc == ToMint(row) && keyId !in s.issued
    ensures Tidy(MintStep(s, id, row, fault, keyId))
  {
    var s' := MintStep(s, id, row, fault, keyId);
    forall c | c in s.calls ensures CallOk(s, c, s.calls[c]) && CallTidy(s.store, s.calls[c]) {
    }
    if fault.RaisesBefore? {
      MovedTidy(s, s', id);
    } else {
      forall c | c in s'.calls ensures CallTidy(s'.store, s'.calls[c]) {
        assert c in s.calls;
      }
    }
  }

  /** Only the key of the listing exchange becomes listed, and that one was read back. */
  lemma DescribeTidy(s: Sys, id: nat, row: Token, keyId: string, fault: Fault)
    requires Inv(s) && Tidy(s) && id in s.calls && s.calls[id].pc == ToDescribe(row, keyId)
    ensures Tidy(DescribeStep(s, id, row, keyId, fault))
  {
    var s' := DescribeStep(s, id, row, keyId, fault);
    assert CallOk(s, id, s.calls[id]) && CallTidy(s.store, s.calls[id]);
    forall c | c in s'.calls ensures CallTidy(s'.store, s'.calls[c]) {
      assert CallTidy(s.store, s.calls[c]);
    }
  }

  lemma ConsumeTidy(s: Sys, id: nat, row: Token, fault: Fault)
    requires Tidy(s) && id in s.calls && s.calls[id].pc == ToConsume(row) && CallOk(s, id, s.calls[id])
    ensures Tidy(ConsumeStep(s, id, row, fault))
  {
    MovedTidy(s, ConsumeStep(s, id, row, fault), id);
  }

  lemma CompensateTidy(s: Sys, id: nat, keyId: string, fault: Fault)
    requires Tidy(s) && id in s.calls && s.calls[id].pc == ToCompensate(keyId) && CallOk(s, id, s.calls[id])
    ensures Tidy(CompensateStep(s, id, keyId, fault))
  {
    assert CallTidy(s.store, s.calls[id]);
    MovedTidy(s, CompensateStep(s, id, keyId, fault), id);
  }

  lemma RecordTidy(s: Sys, id: nat, keyId: string, fault: Fault)
    requires Tidy(s) && id in s.calls && s.calls[id].pc == ToRecord(keyId) && CallOk(s, id, s.calls[id])
    ensures Tidy(RecordStep(s, id, keyId, fault))
  {
    assert CallTidy(s.store, s.calls[id]);
    MovedTidy(s, RecordStep(s, id, keyId, fault), id);
  }

  lemma AdvanceTidy(s: Sys, id: nat, fault: Fault, keyId: string)
    requires Inv(s) && Tidy(s) && id in s.calls
    ensures Tidy(AdvanceStep(s, id, fault, keyId))
  {
    assert CallOk(s, id, s.calls[id]) && CallTidy(s.store, s.calls[id]);
    match s.calls[id].pc
    case ToSelect => MovedTidy(s, SelectStep(s, id, fault), id);
    case ToConsume(row) => ConsumeTidy(s, id, row, fault);
    case ToMint(row) => if keyId !in s.issued { MintTidy(s, id, row, fault, keyId); }
    case ToLoad(row, k) => MovedTidy(s, LoadStep(s, id, row, k, fault), id);
    case ToDescribe(row, k) => DescribeTidy(s, id, row, k, fault);
    case ToCompensate(k) => CompensateTidy(s, id, k, fault);
    case ToRecord(k) => RecordTidy(s, id, k, fault);
    case Done(_) =>
  }

  lemma StepTidy(s: Sys, a: Action)
    requires Inv(s) && Tidy(s)
    ensures Tidy(Step(s, a))
  {
    var s' := Step(s, a);
    if a.Advance? {
      if a.call in s.calls {
        AdvanceTidy(s, a.call, a.fault, a.keyId);
      }
    } else if a.RefuseRevoke? {
      if a.call in s.calls && s.calls[a.call].pc.ToCompensate? {
        assert CallOk(s, a.call, s.calls[a.call]);
        MovedTidy(s, s', a.call);
      }
    } else {
      forall c | c in s'.calls ensures CallTidy(s'.store, s'.calls[c]) {
        assert c in s.calls ==> CallTidy(s.store, s.calls[c]);
      }
    }
  }

  lemma {:induction false} RunTidy(s: Sys, actions: seq<Action>)
    requires Inv(s) && Tidy(s)
    ensures Tidy(Run(s, actions))
  {
    if actions != [] {
      var init := actions[..|actions| - 1];
      RunTidy(s, init);
      RunInv(s, init);
      StepTidy(Run(s, init), actions[|actions| - 1]);
    }
  }

  /** A finished exchange has accounted for the key it minted if and only if it had read the
      key back and could attempt to revoke it while it was unlisted, or the key is not live. */
  lemma AccountedIff(start: int, actions: seq<Action>, id: nat)
    requires id in Run(Init(start), actions).calls
    requires var call := Run(Init(start), actions).calls[id]; call.pc.Done? && call.minted.Some?
    ensures var s := Run(Init(start), actions);
            var call := s.calls[id];
            Accounted(s.store, call.minted.value, call.pc.outcome) <==>
            (call.readBack && !call.refused) || !Live(s.store, call.minted.value)
  {
    RunInv(Init(start), actions);
    RunTidy(Init(start), actions);
    var s := Run(Init(start), actions);
    assert CallOk(s, id, s.calls[id]) && CallTidy(s.store, s.calls[id]);
  }

  // ---- an exchange nothing comes between ----

  lemma {:induction false} RunAppend(s: Sys, a: seq<Action>, b: seq<Action>)
    ensures Run(s, a + b) == Run(Run(s, a), b)
  {
    if b == [] {
      assert a + b == a;
    } else {
      ConcatLast(a, b);
      RunAppend(s, a, b[..|b| - 1]);
    }
  }

  lemma RunOne(s: Sys, a: Action)
    ensures Run(s, [a]) == Step(s, a)
  {
  }

  lemma RunTwo(s: Sys, a: Action, b: Action)
    ensures Run(s, [a, b]) == Step(Step(s, a), b)
  {
    assert [a, b][..1] == [a];
    RunOne(s, a);
  }

  lemma RunThree(s: Sys, a: Action, b: Action, c: Action)
    ensures Run(s, [a, b, c]) == Step(Step(Step(s, a), b), c)
  {
    assert [a, b, c][..2] == [a, b];
    RunTwo(s, a, b);
  }

  /** Up to the mint: begin, select, conditional update. */
  function Claiming(id: nat, tokenId: string, hash: string): seq<Action> {
    [Begin(id, tokenId, hash), Advance(id, Answers, ""), Advance(id, Answers, "")]
  }

  /** From the mint: key row, read-back, metadata row, and the token's key id. */
  function Minting(id: nat, keyId: string): seq<Action> {
    [Advance(id, Answers, keyId), Advance(id, Answers, ""), Advance(id, Answers, "")]
  }

  lemma BeginAndSelect(s: Sys, id: nat, tokenId: string, hash: string)
    requires id !in s.calls
    ensures var pc := if Known(s.store, tokenId, hash) then ToConsume(s.store.tokens[tokenId]) else Done(Rejected);
            Step(Step(s, Begin(id, tokenId, hash)), Advance(id, Answers, ""))
            == s.(calls := s.calls[id := Call(tokenId, hash, s.now, pc, None, false, false)])
  {
    var s1 := Step(s, Begin(id, tokenId, hash));
    assert s1.calls[id] == Call(tokenId, hash, s.now, ToSelect, None, false, false);
    assert Step(s1, Advance(id, Answers, "")) == SelectStep(s1, id, Answers);
  }

  lemma ClaimingRun(s: Sys, id: nat, tokenId: string, hash: string)
    requires id !in s.calls
    ensures var s' := Run(s, Claiming(id, tokenId, hash));
            if Known(s.store, tokenId, hash) && Exchangeable(s.store, tokenId, s.now) then
              s' == s.(store := Consume(s.store, tokenId, s.now), consumers := s.consumers[tokenId := id],
                       calls := s.calls[id := Call(tokenId, hash, s.now, ToMint(s.store.tokens[tokenId]),
                                                   None, false, false)])
            else
              s' == s.(calls := s.calls[id := Call(tokenId, hash, s.now, Done(Rejected), None, false, false)])
  {
    RunThree(s, Begin(id, tokenId, hash), Advance(id, Answers, ""), Advance(id, Answers, ""));
    BeginAndSelect(s, id, tokenId, hash);
    var s2 := Step(Step(s, Begin(id, tokenId, hash)), Advance(id, Answers, ""));
    if s2.calls[id].pc.ToConsume? {
      assert Step(s2, Advance(id, Answers, "")) == ConsumeStep(s2, id, s.store.tokens[tokenId], Answers);
    }
  }

  lemma MintingRun(s: Sys, id: nat, row: Token, keyId: string)
    requires id in s.calls && s.calls[id].pc == ToMint(row) && keyId !in s.issued
    ensures var s' := Run(s, Minting(id, keyId));
            var key := KeyFor(row.tenantId, row.projectId, row.agentScope, s.now);
            && id in s'.calls
            && s'.calls[id] == s.calls[id].(pc := ToRecord(keyId), minted := Some(keyId), readBack := true)
            && s'.store == InsertMetadata(InsertKey(s.store, keyId, key), keyId, RecordFor(row, s.calls[id].tokenId))
  {
    var ok := Advance(id, Answers, "");
    RunThree(s, Advance(id, Answers, keyId), ok, ok);
    var s1 := MintStep(s, id, row, Answers, keyId);
    assert s1.calls[id] == s.calls[id].(pc := ToLoad(row, keyId), minted := Some(keyId));
    var s2 := LoadStep(s1, id, row, keyId, Answers);
    assert s2.calls[id].pc == ToDescribe(row, keyId);
    assert Step(s1, ok) == s2 && Step(s2, ok) == DescribeStep(s2, id, row, keyId, Answers);
  }

  function Finishing(id: nat, keyId: string): seq<Action> {
    Minting(id, keyId) + [Advance(id, Answers, "")]
  }

  lemma FinishingRun(s: Sys, id: nat, row: Token, keyId: string)
    requires id in s.calls && s.calls[id].pc == ToMint(row) && keyId !in s.issued
             && s.calls[id].tokenId in s.store.tokens
    ensures var s' := Run(s, Finishing(id, keyId));
            && id in s'.calls && s'.calls[id].pc == Done(Returned(keyId))
            && s'.store == RecordKey(
                 InsertMetadata(InsertKey(s.store, keyId, KeyFor(row.tenantId, row.projectId, row.agentScope, s.now)),
                                keyId, RecordFor(row, s.calls[id].tokenId)),
                 s.calls[id].tokenId, keyId)
  {
    var last := Advance(id, Answers, "");
    RunAppend(s, Minting(id, keyId), [last]);
    RunOne(Run(s, Minting(id, keyId)), last);
    MintingRun(s, id, row, keyId);
  }

  lemma DoneRun(s: Sys, id: nat, keyId: string)
    requires id in s.calls && s.calls[id].pc.Done?
    ensures Run(s, Finishing(id, keyId)) == s
  {
    var last := Advance(id, Answers, "");
    RunAppend(s, Minting(id, keyId), [last]);
    RunThree(s, Advance(id, Answers, keyId), last, last);
    RunOne(s, last);
  }

  /** With nothing in between and no faults, the durable exchange does what the in-memory
      one does: the same refusals, and the same store after a success. */
  lemma UndisturbedExchange(s: Sys, id: nat, tokenId: string, hash: string, keyId: string)
    requires id !in s.calls && keyId !in s.issued
    ensures var s' := Run(s, Claiming(id, tokenId, hash) + Finishing(id, keyId));
            id in s'.calls &&
            if && tokenId in s.store.tokens && s.store.tokens[tokenId].tokenHash == hash
               && s.store.tokens[tokenId].consumedAt.None? && s.store.tokens[tokenId].revokedAt.None?
               && TextAfter(s.store.tokens[tokenId].expiresAt, s.now)
            then
              var t := s.store.tokens[tokenId];
              var scope := if t.agentScope == "" then "shared" else t.agentScope;
              var agents := if scope == "shared" then {None} else {Some(scope)};
              && s'.calls[id].pc == Done(Returned(keyId))
              && s'.store == Store(
                   s.store.tokens[tokenId := t.(consumedAt := Some(s.now), consumedKeyId := Some(keyId))],
                   s.store.keys[keyId := Key(t.tenantId, scope, {t.projectId}, agents, s.now, None, None)],
                   s.store.metadata[keyId := KeyRecord(t.tenantId, t.projectId, "setup-" + tokenId, scope, "setup")])
              && s'.store == Exchanged(s.store, tokenId, s.now, keyId, s.now)
            else
              s'.calls[id].pc == Done(Rejected) && s'.store == s.store
  {
    RunAppend(s, Claiming(id, tokenId, hash), Finishing(id, keyId));
    ClaimingRun(s, id, tokenId, hash);
    var s1 := Run(s, Claiming(id, tokenId, hash));
    if s1.calls[id].pc.ToMint? {
      FinishingRun(s1, id, s.store.tokens[tokenId], keyId);
    } else {
      DoneRun(s1, id, keyId);
    }
  }

  // ---- two runs at the limits of these guarantees ----

  /** One token, one exchange past its committed consume. */
  function Claimed(ttl: int): seq<Action> {
    [Create("t", "hash", "tenant", "project", "shared", ttl)] + Claiming(0, "t", "hash")
  }

  function UnusedToken(expiresAt: int): Token {
    Token("hash", "tenant", "project", "shared", expiresAt, None, None, None, None)
  }

  lemma SecondsLater(start: int, seconds: int)
    requires seconds > 0
    ensures TextAfter(start + seconds * SECOND, start)
  {
    assert (start + seconds * SECOND) / SECOND == start / SECOND + seconds;
  }

  lemma ClaimedRun(start: int, ttl: int)
    requires ttl > 0
    ensures var s := Run(Init(start), Claimed(ttl));
            && s.calls == map[0 := Call("t", "hash", start, ToMint(UnusedToken(start + ttl * SECOND)),
                                        None, false, false)]
            && s.issued == {} && s.mints == [] && s.now == start && s.store.keys == map[] && s.store.metadata == map[]
            && "t" in s.store.tokens && s.store.tokens["t"].revokedAt.None?
  {
    var create := Create("t", "hash", "tenant", "project", "shared", ttl);
    RunAppend(Init(start), [create], Claiming(0, "t", "hash"));
    RunOne(Init(start), create);
    SecondsLater(start, ttl);
    ClaimingRun(Step(Init(start), create), 0, "t", "hash");
  }

  /** One key minted and read back, not listed yet. */
  lemma ReadBackRun(start: int, ttl: int)
    requires ttl > 0
    ensures var s := Run(Init(start), Claimed(ttl) + [Advance(0, Answers, "k"), Advance(0, Answers, "")]);
            && Live(s.store, "k") && "k" !in s.store.metadata && 0 in s.calls && s.calls[0].readBack
            && s.calls[0].pc == ToDescribe(UnusedToken(start + ttl * SECOND), "k")
  {
    var mint, load := Advance(0, Answers, "k"), Advance(0, Answers, "");
    RunAppend(Init(start), Claimed(ttl), [mint, load]);
    ClaimedRun(start, ttl);
    RunTwo(Run(Init(start), Claimed(ttl)), mint, load);
  }

  /** A revoke that commits between the consume and the key row does not stop the key. */
  lemma RevokeLosesTheRace(start: int, ttl: int)
    requires ttl > 0
    ensures var s := Run(Init(start), Claimed(ttl) + [Revoke("t", None)]);
            && "t" in s.store.tokens && s.store.tokens["t"].revokedAt == Some(start) && s.mints == []
            && Run(s, [Advance(0, Answers, "k")]).mints == [Mint("t", "k", 0)]
            && Live(Run(s, [Advance(0, Answers, "k")]).store, "k")
  {
    RunAppend(Init(start), Claimed(ttl), [Revoke("t", None)]);
    ClaimedRun(start, ttl);
    RunOne(Run(Init(start), Claimed(ttl)), Revoke("t", None));
    RunOne(Run(Init(start), Claimed(ttl) + [Revoke("t", None)]), Advance(0, Answers, "k"));
  }

  /** A read-back that fails leaves a live key that is neither listed nor named. */
  lemma FailedReadBackOrphansTheKey(start: int, ttl: int)
    requires ttl > 0
    ensures var s := Run(Init(start), Claimed(ttl) + [Advance(0, Answers, "k"), Advance(0, RaisesBefore, "")]);
            && Live(s.store, "k") && "k" !in s.store.metadata && 0 in s.calls && s.calls[0].pc == Done(Raised(None))
  {
    var mint, load := Advance(0, Answers, "k"), Advance(0, RaisesBefore, "");
    RunAppend(Init(start), Claimed(ttl), [mint, load]);
    ClaimedRun(start, ttl);
    RunTwo(Run(Init(start), Claimed(ttl)), mint, load);
  }

  /** So does a key row whose insertion commits and then raises, with no read-back at all. */
  lemma RaisingInsertOrphansTheKey(start: int, ttl: int)
    requires ttl > 0
    ensures var s := Run(Init(start), Claimed(ttl) + [Advance(0, RaisesAfter, "k")]);
            && Live(s.store, "k") && "k" !in s.store.metadata && 0 in s.calls && s.calls[0].pc == Done(Raised(None))
  {
    RunAppend(Init(start), Claimed(ttl), [Advance(0, RaisesAfter, "k")]);
    ClaimedRun(start, ttl);
    RunOne(Run(Init(start), Claimed(ttl)), Advance(0, RaisesAfter, "k"));
  }

  /** And so does a failed listing whose compensating revoke the operating system refuses,
      although the key was read back. */
  lemma RefusedRevokeOrphansTheKey(start: int, ttl: int)
    requires ttl > 0
    ensures var readBack := Claimed(ttl) + [Advance(0, Answers, "k"), Advance(0, Answers, "")];
            var s := Run(Init(start), readBack + [Advance(0, RaisesBefore, ""), RefuseRevoke(0)]);
            && Live(s.store, "k") && "k" !in s.store.metadata
            && 0 in s.calls && s.calls[0].readBack && s.calls[0].pc == Done(Raised(None))
  {
    var readBack := Claimed(ttl) + [Advance(0, Answers, "k"), Advance(0, Answers, "")];
    var fails, refuses := Advance(0, RaisesBefore, ""), RefuseRevoke(0);
    RunAppend(Init(start), readBack, [fails, refuses]);
    ReadBackRun(start, ttl);
    RunTwo(Run(Init(start), readBack), fails, refuses);
  }

  // ---- expiry by text ----

  /** The stored texts order two times as the clock does, except within one second when
      exactly one of the two is a whole second: its text then is the later one. */
  lemma TextOrderIff(a: int, b: int)
    ensures (TextAfter(a, b) <==> a > b) <==>
            !(a / SECOND == b / SECOND && (a % SECOND == 0) != (b % SECOND == 0))
    ensures a / SECOND == b / SECOND && (a % SECOND == 0) != (b % SECOND == 0) ==>
              (TextAfter(a, b) <==> a % SECOND == 0)
  {
    assert a == a / SECOND * SECOND + a % SECOND && b == b / SECOND * SECOND + b % SECOND;
  }

  /** So an exchange begun up to a second after a whole-second expiry is still accepted. */
  lemma LateExchangeAccepted(start: int, late: nat)
    requires start % SECOND == 0 && 0 < late < SECOND
    ensures var create := Create("t", "hash", "tenant", "project", "shared", 1);
            var s := Run(Init(start), [create, Elapse(SECOND + late)] + Claiming(0, "t", "hash"));
            && AboutToMint(s, 0) && "t" in s.store.tokens
            && s.calls[0].startedAt == s.store.tokens["t"].expiresAt + late
  {
    var create := Create("t", "hash", "tenant", "project", "shared", 1);
    RunAppend(Init(start), [create, Elapse(SECOND + late)], Claiming(0, "t", "hash"));
    RunTwo(Init(start), create, Elapse(SECOND + late));
    var s := Step(Step(Init(start), create), Elapse(SECOND + late));
    TextOrderIff(start + SECOND, start + SECOND + late);
    ClaimingRun(s, 0, "t", "hash");
  }
}
