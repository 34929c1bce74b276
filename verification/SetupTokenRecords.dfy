/** What the durable rows say about an exchange, and that no later step rewrites it. */
module SetupTokenRecords {
  import opened Common
  import opened SetupTokens
  import opened SetupTokenTheorems

  // ---- first stamps stay ----

  ghost predicate TokenStampsKept(a: Token, b: Token) {
    && (a.consumedAt.Some? ==> b.consumedAt == a.consumedAt)
    && (a.revokedAt.Some? ==> b.revokedAt == a.revokedAt)
    && (a.revokedBy.Some? ==> b.revokedBy == a.revokedBy)
  }

  ghost predicate KeyStampsKept(a: Key, b: Key) {
    && b.createdAt == a.createdAt
    && (a.revokedAt.Some? ==> b.revokedAt == a.revokedAt)
    && (a.revokedBy.Some? ==> b.revokedBy == a.revokedBy)
  }

  ghost predicate StampsKept(s: Sys, s': Sys) {
    && (forall t :: t in s.store.tokens ==>
          t in s'.store.tokens && TokenStampsKept(s.store.tokens[t], s'.store.tokens[t]))
    && (forall k :: k in s.issued && k in s'.store.keys ==>
          k in s.store.keys && KeyStampsKept(s.store.keys[k], s'.store.keys[k]))
    && s.issued <= s'.issued
  }

  lemma ConsumeKeepsStamps(s: Sys, id: nat, row: Token, fault: Fault)
    requires id in s.calls
    ensures StampsKept(s, ConsumeStep(s, id, row, fault))
  {
  }

  lemma CompensateKeepsStamps(s: Sys, id: nat, keyId: string, fault: Fault)
    requires id in s.calls
    ensures StampsKept(s, CompensateStep(s, id, keyId, fault))
  {
  }

  lemma RecordKeepsStamps(s: Sys, id: nat, keyId: string, fault: Fault)
    requires id in s.calls
    ensures StampsKept(s, RecordStep(s, id, keyId, fault))
  {
  }

  lemma AdvanceKeepsStamps(s: Sys, id: nat, fault: Fault, keyId: string)
    requires id in s.calls
    ensures StampsKept(s, AdvanceStep(s, id, fault, keyId))
  {
    match s.calls[id].pc
    case ToConsume(row) => ConsumeKeepsStamps(s, id, row, fault);
    case ToCompensate(k) => CompensateKeepsStamps(s, id, k, fault);
    case ToRecord(k) => RecordKeepsStamps(s, id, k, fault);
    case _ =>
  }

  lemma StepKeepsStamps(s: Sys, a: Action)
    ensures StampsKept(s, Step(s, a))
  {
    if a.Advance? && a.call in s.calls {
      AdvanceKeepsStamps(s, a.call, a.fault, a.keyId);
    }
  }

  /** The first consumption and the first revocation stand, of tokens and of keys. */
  lemma {:induction false} FirstStampsStay(s: Sys, actions: seq<Action>)
    ensures StampsKept(s, Run(s, actions))
  {
    if actions != [] {
      var before := Run(s, actions[..|actions| - 1]);
      FirstStampsStay(s, actions[..|actions| - 1]);
      StepKeepsStamps(before, actions[|actions| - 1]);
    }
  }

  /** And a revocation of something unrevoked stamps it with its own time and actor; a row
      that vanishes takes its stamps along. */
  lemma RevocationStamps(s: Sys, id: string, actor: Option<string>)
    ensures Step(s, Vanish(id)).store == s.store.(keys := s.store.keys - {id})
    ensures id in s.store.tokens && s.store.tokens[id].revokedAt.None? && s.store.tokens[id].revokedBy.None? ==>
              Step(s, Revoke(id, actor)).store.tokens
              == s.store.tokens[id := s.store.tokens[id].(revokedAt := Some(s.now), revokedBy := actor)]
    ensures id in s.store.keys && s.store.keys[id].revokedAt.None? && s.store.keys[id].revokedBy.None? ==>
              Step(s, RevokeApiKey(id, actor)).store.keys
              == s.store.keys[id := s.store.keys[id].(revokedAt := Some(s.now), revokedBy := actor)]
  {
  }

  // ---- what the rows of an exchange say ----

  /** The listing row a console shows for the key of a token. */
  ghost predicate Describes(record: KeyRecord, token: Token, tokenId: string) {
    && record.tenantId == token.tenantId && record.projectId == token.projectId
    && record.agentScope == ScopeName(token.agentScope)
    && record.name == "setup-" + tokenId && record.createdVia == "setup"
  }

  ghost predicate RowsSay(st: Store, call: Call) {
    && (call.minted.Some? ==> call.tokenId in st.tokens)
    && (call.minted.Some? && call.minted.value in st.metadata ==>
          Describes(st.metadata[call.minted.value], st.tokens[call.tokenId], call.tokenId))
    && (call.pc.ToLoad? || call.pc.ToDescribe? ==>
          call.tokenId in st.tokens && SameToken(call.pc.row, st.tokens[call.tokenId]))
    && (call.pc.Done? && call.pc.outcome.Returned? ==>
          call.tokenId in st.tokens && st.tokens[call.tokenId].consumedKeyId == Some(call.pc.outcome.keyId))
  }

  ghost predicate AllSay(s: Sys) {
    forall id :: id in s.calls ==> RowsSay(s.store, s.calls[id])
  }

  /** A step of one exchange touches only its own token's key id, its own key's listing, and
      its own position. */
  ghost predicate OwnRows(s: Sys, s': Sys, id: nat)
    requires id in s.calls
  {
    var call := s.calls[id];
    && (forall k :: k in s'.store.metadata && call.minted != Some(k) ==>
          k in s.store.metadata && s'.store.metadata[k] == s.store.metadata[k])
    && (forall t :: t in s.store.tokens ==>
          && t in s'.store.tokens && SameToken(s.store.tokens[t], s'.store.tokens[t])
          && (t != call.tokenId || call.minted.None? ==>
                s'.store.tokens[t].consumedKeyId == s.store.tokens[t].consumedKeyId))
    && (forall c :: c in s'.calls && c != id ==> c in s.calls && s'.calls[c] == s.calls[c])
  }

  lemma ConsumeOwnRows(s: Sys, id: nat, row: Token, fault: Fault)
    requires id in s.calls
    ensures OwnRows(s, ConsumeStep(s, id, row, fault), id)
  {
  }

  lemma DescribeOwnRows(s: Sys, id: nat, row: Token, keyId: string, fault: Fault)
    requires id in s.calls && s.calls[id].minted == Some(keyId)
    ensures OwnRows(s, DescribeStep(s, id, row, keyId, fault), id)
  {
  }

  lemma CompensateOwnRows(s: Sys, id: nat, keyId: string, fault: Fault)
    requires id in s.calls
    ensures OwnRows(s, CompensateStep(s, id, keyId, fault), id)
  {
  }

  lemma RecordOwnRows(s: Sys, id: nat, keyId: string, fault: Fault)
    requires id in s.calls && s.calls[id].minted == Some(keyId)
    ensures OwnRows(s, RecordStep(s, id, keyId, fault), id)
  {
  }

  lemma AdvanceOwnRows(s: Sys, id: nat, fault: Fault, keyId: string)
    requires id in s.calls && CallOk(s, id, s.calls[id])
    ensures OwnRows(s, AdvanceStep(s, id, fault, keyId), id)
  {
    match s.calls[id].pc
    case ToConsume(row) => ConsumeOwnRows(s, id, row, fault);
    case ToDescribe(row, k) => DescribeOwnRows(s, id, row, k, fault);
    case ToCompensate(k) => CompensateOwnRows(s, id, k, fault);
    case ToRecord(k) => RecordOwnRows(s, id, k, fault);
    case _ =>
  }

  /** Two exchanges that minted have different tokens and different keys. */
  lemma OneExchangePerToken(s: Sys, i: nat, j: nat)
    requires Inv(s) && Tidy(s) && i in s.calls && j in s.calls && i != j
    requires s.calls[i].minted.Some? && s.calls[j].minted.Some?
    ensures s.calls[i].tokenId != s.calls[j].tokenId && s.calls[i].minted != s.calls[j].minted
  {
    assert CallOk(s, i, s.calls[i]) && CallOk(s, j, s.calls[j]);
  }

  lemma OthersSay(s: Sys, s': Sys, id: nat, c: nat)
    requires Inv(s) && Tidy(s) && AllSay(s) && id in s.calls && OwnRows(s, s', id)
    requires c in s.calls && c != id
    ensures RowsSay(s'.store, s.calls[c])
  {
    assert RowsSay(s.store, s.calls[c]) && CallOk(s, c, s.calls[c]);
    if s.calls[id].minted.Some? && s.calls[c].minted.Some? {
      OneExchangePerToken(s, id, c);
    }
  }

  lemma MintSays(s: Sys, id: nat, row: Token, fault: Fault, keyId: string)
    requires Inv(s) && Tidy(s) && AllSay(s) && id in s.calls && s.calls[id].pc == ToMint(row) && keyId !in s.issued
    ensures var s' := MintStep(s, id, row, fault, keyId);
            id in s'.calls && RowsSay(s'.store, s'.calls[id])
  {
    assert CallOk(s, id, s.calls[id]) && RowsSay(s.store, s.calls[id]);
  }

  lemma DescribeSays(s: Sys, id: nat, row: Token, keyId: string, fault: Fault)
    requires id in s.calls && s.calls[id].pc == ToDescribe(row, keyId)
    requires CallOk(s, id, s.calls[id]) && RowsSay(s.store, s.calls[id])
    ensures var s' := DescribeStep(s, id, row, keyId, fault);
            id in s'.calls && RowsSay(s'.store, s'.calls[id])
  {
  }

  lemma RecordSays(s: Sys, id: nat, keyId: string, fault: Fault)
    requires id in s.calls && s.calls[id].pc == ToRecord(keyId)
    requires CallOk(s, id, s.calls[id]) && RowsSay(s.store, s.calls[id])
    ensures var s' := RecordStep(s, id, keyId, fault);
            id in s'.calls && RowsSay(s'.store, s'.calls[id])
  {
  }

  lemma ConsumeSays(s: Sys, id: nat, row: Token, fault: Fault)
    requires id in s.calls && s.calls[id].pc == ToConsume(row) && CallOk(s, id, s.calls[id])
    ensures var s' := ConsumeStep(s, id, row, fault);
            id in s'.calls && RowsSay(s'.store, s'.calls[id])
  {
  }

  lemma CompensateShape(s: Sys, id: nat, keyId: string, fault: Fault)
    requires id in s.calls
    ensures var s' := CompensateStep(s, id, keyId, fault);
            && s'.store.tokens == s.store.tokens && s'.store.metadata == s.store.metadata && id in s'.calls
            && s'.calls[id].tokenId == s.calls[id].tokenId && s'.calls[id].minted == s.calls[id].minted
            && s'.calls[id].pc.Done? && s'.calls[id].pc.outcome.Raised?
  {
  }

  lemma CompensateSays(s: Sys, id: nat, keyId: string, fault: Fault)
    requires id in s.calls && s.calls[id].pc == ToCompensate(keyId) && RowsSay(s.store, s.calls[id])
    ensures var s' := CompensateStep(s, id, keyId, fault);
            id in s'.calls && RowsSay(s'.store, s'.calls[id])
  {
    CompensateShape(s, id, keyId, fault);
  }

  lemma OwnSays(s: Sys, id: nat, fault: Fault, keyId: string)
    requires Inv(s) && Tidy(s) && AllSay(s) && id in s.calls
    ensures var s' := AdvanceStep(s, id, fault, keyId);
            id in s'.calls && RowsSay(s'.store, s'.calls[id])
  {
    assert CallOk(s, id, s.calls[id]) && RowsSay(s.store, s.calls[id]);
    match s.calls[id].pc
    case ToConsume(row) => ConsumeSays(s, id, row, fault);
    case ToMint(row) => if keyId !in s.issued { MintSays(s, id, row, fault, keyId); }
    case ToCompensate(k) => CompensateSays(s, id, k, fault);
    case ToDescribe(row, k) => DescribeSays(s, id, row, k, fault);
    case ToRecord(k) => RecordSays(s, id, k, fault);
    case _ =>
  }

  /** Each exchange speaks for itself; `s'` is what a step of `id` leaves. */
  lemma AllSayAfter(s: Sys, s': Sys, id: nat)
    requires Inv(s) && Tidy(s) && AllSay(s) && id in s.calls && OwnRows(s, s', id)
    requires id in s'.calls && RowsSay(s'.store, s'.calls[id])
    ensures AllSay(s')
  {
    forall c | c in s'.calls && c != id ensures RowsSay(s'.store, s'.calls[c]) {
      OthersSay(s, s', id, c);
    }
  }

  lemma AdvanceSays(s: Sys, id: nat, fault: Fault, keyId: string)
    requires Inv(s) && Tidy(s) && AllSay(s) && id in s.calls
    ensures AllSay(AdvanceStep(s, id, fault, keyId))
  {
    AdvanceOwnRows(s, id, fault, keyId);
    OwnSays(s, id, fault, keyId);
    AllSayAfter(s, AdvanceStep(s, id, fault, keyId), id);
  }

  lemma StepSays(s: Sys, a: Action)
    requires Inv(s) && Tidy(s) && AllSay(s)
    ensures AllSay(Step(s, a))
  {
    if a.Advance? {
      if a.call in s.calls {
        AdvanceSays(s, a.call, a.fault, a.keyId);
      }
    } else {
      var s' := Step(s, a);
      forall c | c in s'.calls ensures RowsSay(s'.store, s'.calls[c]) {
        assert c in s.calls ==> RowsSay(s.store, s.calls[c]);
      }
    }
  }

  lemma {:induction false} RunSays(s: Sys, actions: seq<Action>)
    requires Inv(s) && Tidy(s) && AllSay(s)
    ensures AllSay(Run(s, actions))
  {
    if actions != [] {
      var init := actions[..|actions| - 1];
      RunSays(s, init);
      RunInv(s, init);
      RunTidy(s, init);
      StepSays(Run(s, init), actions[|actions| - 1]);
    }
  }

  /** In every run: a listed key carries its token's grant and name, and a token whose
      exchange returned names exactly the key that was returned. */
  lemma RowsNameTheKey(start: int, actions: seq<Action>, id: nat)
    requires id in Run(Init(start), actions).calls
    ensures var s := Run(Init(start), actions);
            var call := s.calls[id];
            && (call.minted.Some? && call.minted.value in s.store.metadata ==>
                  && call.tokenId in s.store.tokens
                  && Describes(s.store.metadata[call.minted.value], s.store.tokens[call.tokenId], call.tokenId))
            && (call.pc.Done? && call.pc.outcome.Returned? ==>
                  && call.tokenId in s.store.tokens
                  && s.store.tokens[call.tokenId].consumedKeyId == Some(call.pc.outcome.keyId))
  {
    RunSays(Init(start), actions);
    assert RowsSay(Run(Init(start), actions).store, Run(Init(start), actions).calls[id]);
  }

  /** How the compensation of a failed listing ends.  A revoke that is answered leaves the key
      revoked and unnamed, and so does a key already gone; one that raises names the key,
      whether or not it took effect; one the operating system refuses does neither. */
  lemma CompensationEnds(s: Sys, id: nat, keyId: string, fault: Fault)
    requires id in s.calls && s.calls[id].pc == ToCompensate(keyId)
    ensures var s' := Step(s, Advance(id, fault, ""));
            var known := keyId in s.store.keys;
            && id in s'.calls
            && s'.calls[id].pc == Done(Raised(if fault.RaisesBefore? || (known && fault.RaisesAfter?) then Some(keyId)
                                              else None))
            && (known && !fault.RaisesBefore? ==> keyId in s'.store.keys && s'.store.keys[keyId].revokedAt.Some?)
            && (!known || fault.RaisesBefore? ==> s'.store == s.store)
    ensures var s' := Step(s, RefuseRevoke(id));
            s'.store == s.store && id in s'.calls && s'.calls[id].pc == Done(Raised(None))
  {
    assert Step(s, Advance(id, fault, "")) == CompensateStep(s, id, keyId, fault);
    assert Step(s, RefuseRevoke(id)) == RefuseStep(s, id, keyId);
  }

  /** A call on the durable store that raises has had its whole effect or none. */
  lemma RaisedCallsLandOrNot(s: Sys, id: nat, keyId: string)
    requires id in s.calls
    ensures Step(s, Advance(id, RaisesAfter, keyId)).store == Step(s, Advance(id, Answers, keyId)).store
    ensures Step(s, Advance(id, RaisesBefore, keyId)).store == s.store
  {
    RaisedStepLands(s, id, keyId);
  }

  lemma RaisedStepLands(s: Sys, id: nat, keyId: string)
    requires id in s.calls
    ensures AdvanceStep(s, id, RaisesAfter, keyId).store == AdvanceStep(s, id, Answers, keyId).store
    ensures AdvanceStep(s, id, RaisesBefore, keyId).store == s.store
  {
    match s.calls[id].pc
    case ToConsume(_) =>
    case ToMint(_) =>
    case ToDescribe(_, _) =>
    case ToCompensate(_) =>
    case ToRecord(_) =>
    case _ =>
  }

  /** A raising call ends its exchange with an error that names no key, except that a listing
      that raises goes on to revoke the key. */
  lemma RaisedCallEnds(s: Sys, id: nat, fault: Fault, keyId: string)
    requires id in s.calls && !fault.Answers? && !s.calls[id].pc.Done? && !s.calls[id].pc.ToCompensate?
    requires s.calls[id].pc.ToMint? ==> keyId !in s.issued
    ensures var s' := AdvanceStep(s, id, fault, keyId);
            && id in s'.calls
            && s'.calls[id].pc == if s.calls[id].pc.ToDescribe? then ToCompensate(s.calls[id].pc.keyId)
                                  else Done(Raised(None))
  {
    match s.calls[id].pc
    case ToConsume(_) =>
    case ToMint(_) =>
    case ToDescribe(_, _) =>
    case ToRecord(_) =>
    case _ =>
  }
}
