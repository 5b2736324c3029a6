/** What every run of trunk operations keeps when any of its writes may fail. */
module TrunkRollback {
  import opened Prelude
  import opened Trimming
  import opened TrunkIds
  import opened TrunkProvisioning
  import opened RowImage
  import opened TrunkImage
  import opened TrunkRuns

  // ---------- The rows at the ids of one trunk ----------

  ghost function Only<R>(table: map<string, R>, key: string): map<string, R> {
    map k | k in table && k == key :: table[k]
  }

  ghost function RowsAt(table: map<string, IdentifyRow>, endpointId: string): map<string, IdentifyRow> {
    map k | k in table && table[k].endpoint == endpointId :: table[k]
  }

  /** The rows Asterisk has under the endpoint id and the auth id of a trunk. */
  ghost function RowsOf(tables: Tables, t: Trunk): Tables {
    Tables(Only(tables.endpoints, t.pjsipEndpointId), Only(tables.aors, t.pjsipEndpointId),
           Only(tables.auths, TrunkAuthId(t.id)), RowsAt(tables.identifies, t.pjsipEndpointId))
  }

  /** They are the rows the trunk should have. */
  ghost predicate InSync(tables: Tables, t: Trunk) {
    RowsOf(tables, t) == Tables(EndpointPart(t), AorPart(t), AuthPart(t), IdentifyPart(t))
  }

  lemma OnlyWritten<R>(table: map<string, R>, cleared: set<string>, key: string, part: map<string, R>)
    requires part.Keys <= {key} && key in cleared
    ensures Only((table - cleared) + part, key) == part
  {
  }

  lemma OnlyKept<R>(table: map<string, R>, cleared: set<string>, key: string, part: map<string, R>)
    requires key !in cleared && key !in part
    ensures Only((table - cleared) + part, key) == Only(table, key)
    ensures Only(table - cleared, key) == Only(table, key)
  {
  }

  lemma RowsWritten(table: map<string, IdentifyRow>, cleared: set<string>, endpointId: string,
                    part: map<string, IdentifyRow>)
    requires endpointId in cleared && forall k :: k in part ==> part[k].endpoint == endpointId
    ensures RowsAt(WithoutEndpoints(table, cleared) + part, endpointId) == part
  {
  }

  lemma RowsKept(table: map<string, IdentifyRow>, cleared: set<string>, endpointId: string,
                 part: map<string, IdentifyRow>)
    requires endpointId !in cleared
    requires forall k :: k in part ==> part[k].endpoint != endpointId && k !in RowsAt(table, endpointId)
    ensures RowsAt(WithoutEndpoints(table, cleared) + part, endpointId) == RowsAt(table, endpointId)
    ensures RowsAt(WithoutEndpoints(table, cleared), endpointId) == RowsAt(table, endpointId)
  {
  }

  // ---------- What failures never break ----------

  ghost predicate ForeignHeld(tables: Tables, foreign: Tables) {
    && (forall k :: k in foreign.endpoints ==> k in tables.endpoints && tables.endpoints[k] == foreign.endpoints[k])
    && (forall k :: k in foreign.aors ==> k in tables.aors && tables.aors[k] == foreign.aors[k])
    && (forall k :: k in foreign.auths ==> k in tables.auths && tables.auths[k] == foreign.auths[k])
  }

  ghost predicate EndpointsDistinct(trunks: map<Uuid, Trunk>, foreign: Tables) {
    && (forall u :: u in trunks ==> trunks[u].pjsipEndpointId !in foreign.endpoints)
    && (forall u, v :: u in trunks && v in trunks && u != v ==>
          trunks[u].pjsipEndpointId != trunks[v].pjsipEndpointId)
  }

  /** Every identify row points to an endpoint row. */
  ghost predicate Referential(tables: Tables) {
    forall k :: k in tables.identifies ==> tables.identifies[k].endpoint in tables.endpoints
  }

  /** The identify id is derived from the uuid. */
  ghost predicate BelongsTo(k: string, u: Uuid) {
    |k| >= 33 && k[1..33] == Compact(u)
  }

  /** The identify rows at the endpoint of a trunk are its own. */
  ghost predicate OwnIds(identifies: map<string, IdentifyRow>, trunks: map<Uuid, Trunk>) {
    forall k, u :: k in identifies && u in trunks && identifies[k].endpoint == trunks[u].pjsipEndpointId ==>
      BelongsTo(k, u)
  }

  ghost predicate Sane(s: Store, foreign: Tables) {
    && AllWellFormed(s.trunks) && EndpointsDistinct(s.trunks, foreign) && ForeignHeld(s.tables, foreign)
    && Referential(s.tables) && OwnIds(s.tables.identifies, s.trunks)
  }

  /** Every trunk but the stale ones has exactly its rows. */
  ghost predicate SyncedBut(s: Store, stale: set<Uuid>) {
    forall u :: u in s.trunks && u !in stale ==> InSync(s.tables, s.trunks[u])
  }

  /** Neither the trunk v nor its rows change. */
  ghost predicate Untouched(s: Store, s': Store, v: Uuid) {
    && (v in s.trunks <==> v in s'.trunks)
    && (v in s.trunks ==>
          s'.trunks[v] == s.trunks[v] && RowsOf(s'.tables, s.trunks[v]) == RowsOf(s.tables, s.trunks[v]))
  }

  // ---------- Identify rows belong to one trunk ----------

  lemma IdentifyPartBelongs(u: Uuid, t: Trunk)
    requires IsUuid(u) && t.id == u && |t.identifyIps| <= MAX_IDENTIFIES
    ensures forall k :: k in IdentifyPart(t) ==> BelongsTo(k, u) && IdentifyPart(t)[k].endpoint == t.pjsipEndpointId
  {
    if t.enabled {
      IdentifyRowsExact(u, t.pjsipEndpointId, t.identifyIps);
      forall k | k in IdentifyPart(t) ensures BelongsTo(k, u) {
        var i :| 0 <= i < |t.identifyIps| && k == IdentifyIds(u, |t.identifyIps|)[i];
        IdentifyIdWhole(u, i);
      }
    }
  }

  lemma BelongsToOne(k: string, u: Uuid, v: Uuid)
    requires IsUuid(u) && IsUuid(v) && BelongsTo(k, u) && BelongsTo(k, v)
    ensures u == v
  {
    CompactInjective(u, v);
  }

  // ---------- Saving a trunk ----------

  /** The new endpoint id is the trunk's own or in use nowhere. */
  ghost predicate Available(s: Store, foreign: Tables, u: Uuid, endpointId: string) {
    && Free(s, foreign, u, endpointId)
    && ((u in s.trunks && s.trunks[u].pjsipEndpointId == endpointId) || endpointId !in s.tables.endpoints)
  }

  lemma SaveKeepsSane(s: Store, foreign: Tables, u: Uuid, t: Trunk)
    requires Sane(s, foreign) && WellFormed(u, t) && Available(s, foreign, u, t.pjsipEndpointId)
    ensures Sane(s.(trunks := s.trunks[u := t]), foreign)
  {
    AllWellFormedPut(s.trunks, u, t);
    SaveKeepsDistinct(s, foreign, u, t);
    SaveKeepsOwnIds(s, u, t);
  }

  lemma SaveKeepsDistinct(s: Store, foreign: Tables, u: Uuid, t: Trunk)
    requires EndpointsDistinct(s.trunks, foreign) && Free(s, foreign, u, t.pjsipEndpointId)
    ensures EndpointsDistinct(s.trunks[u := t], foreign)
  {
  }

  lemma SaveKeepsOwnIds(s: Store, u: Uuid, t: Trunk)
    requires Referential(s.tables) && OwnIds(s.tables.identifies, s.trunks)
    requires (u in s.trunks && s.trunks[u].pjsipEndpointId == t.pjsipEndpointId)
             || t.pjsipEndpointId !in s.tables.endpoints
    ensures OwnIds(s.tables.identifies, s.trunks[u := t])
  {
  }

  // ---------- Writing the rows of a saved trunk ----------

  /** Endpoint ids that only u gives up or takes. */
  ghost predicate OnlyOwn(s: Store, foreign: Tables, u: Uuid, cleared: set<string>) {
    && cleared !! foreign.endpoints.Keys
    && forall v :: v in s.trunks && v != u ==> s.trunks[v].pjsipEndpointId !in cleared
  }

  lemma WriteKeepsSane(s: Store, foreign: Tables, u: Uuid, cleared: set<string>)
    requires Sane(s, foreign) && ForeignRows(foreign) && u in s.trunks && OnlyOwn(s, foreign, u, cleared)
    requires s.trunks[u].pjsipEndpointId in cleared
    ensures Sane(s.(tables := Rewritten(s.tables, u, s.trunks[u], cleared)), foreign)
  {
    assert WellFormed(u, s.trunks[u]);
    IdentifyPartBelongs(u, s.trunks[u]);
    WriteKeepsForeign(s, foreign, u, cleared);
    WriteKeepsReferential(s, u, cleared);
    WriteKeepsOwnIds(s, foreign, u, cleared);
  }

  lemma WriteKeepsForeign(s: Store, foreign: Tables, u: Uuid, cleared: set<string>)
    requires ForeignHeld(s.tables, foreign) && ForeignRows(foreign) && u in s.trunks && WellFormed(u, s.trunks[u])
    requires OnlyOwn(s, foreign, u, cleared) && s.trunks[u].pjsipEndpointId in cleared
    ensures ForeignHeld(Rewritten(s.tables, u, s.trunks[u], cleared), foreign)
  {
    var t, authId := s.trunks[u], TrunkAuthId(u);
    AuthIdNotForeign(foreign, u);
    assert EndpointPart(t).Keys <= cleared && AorPart(t).Keys <= cleared;
    SubmapKept(s.tables.endpoints, foreign.endpoints, cleared, EndpointPart(t));
    SubmapKept(s.tables.aors, foreign.aors, cleared, AorPart(t));
    SubmapKept(s.tables.auths, foreign.auths, {authId}, AuthPart(t));
  }

  lemma AuthIdNotForeign(foreign: Tables, u: Uuid)
    requires ForeignRows(foreign) && IsUuid(u)
    ensures TrunkAuthId(u) !in foreign.auths
  {
    DerivedIdsFit(u, 0);
  }

  lemma SubmapKept<R>(table: map<string, R>, kept: map<string, R>, cleared: set<string>, part: map<string, R>)
    requires forall k :: k in kept ==> k in table && table[k] == kept[k]
    requires cleared !! kept.Keys && part.Keys <= cleared
    ensures var table' := (table - cleared) + part; forall k :: k in kept ==> k in table' && table'[k] == kept[k]
  {
    forall k | k in kept ensures k !in cleared && k !in part {
      assert k in kept.Keys;
    }
  }

  lemma WriteKeepsReferential(s: Store, u: Uuid, cleared: set<string>)
    requires Referential(s.tables) && u in s.trunks && s.trunks[u].pjsipEndpointId in cleared
    requires forall k :: k in IdentifyPart(s.trunks[u]) ==>
               IdentifyPart(s.trunks[u])[k].endpoint == s.trunks[u].pjsipEndpointId
    ensures Referential(Rewritten(s.tables, u, s.trunks[u], cleared))
  {
  }

  lemma WriteKeepsOwnIds(s: Store, foreign: Tables, u: Uuid, cleared: set<string>)
    requires OwnIds(s.tables.identifies, s.trunks) && EndpointsDistinct(s.trunks, foreign) && u in s.trunks
    requires forall k :: k in IdentifyPart(s.trunks[u]) ==>
               BelongsTo(k, u) && IdentifyPart(s.trunks[u])[k].endpoint == s.trunks[u].pjsipEndpointId
    ensures OwnIds(Rewritten(s.tables, u, s.trunks[u], cleared).identifies, s.trunks)
  {
  }

  /** The trunk is in sync afterwards, whatever its rows were before. */
  lemma WriteSyncs(tables: Tables, u: Uuid, t: Trunk, cleared: set<string>)
    requires WellFormed(u, t) && t.pjsipEndpointId in cleared
    ensures InSync(Rewritten(tables, u, t, cleared), t)
  {
    IdentifyPartBelongs(u, t);
    OnlyWritten(tables.endpoints, cleared, t.pjsipEndpointId, EndpointPart(t));
    OnlyWritten(tables.aors, cleared, t.pjsipEndpointId, AorPart(t));
    OnlyWritten(tables.auths, {TrunkAuthId(u)}, TrunkAuthId(u), AuthPart(t));
    RowsWritten(tables.identifies, cleared, t.pjsipEndpointId, IdentifyPart(t));
  }

  lemma OthersDiffer(s: Store, foreign: Tables, u: Uuid, v: Uuid)
    requires AllWellFormed(s.trunks) && EndpointsDistinct(s.trunks, foreign) && u in s.trunks && v in s.trunks && v != u
    ensures s.trunks[u].pjsipEndpointId != s.trunks[v].pjsipEndpointId && IsUuid(u) && IsUuid(v)
    ensures s.trunks[u].id == u && s.trunks[v].id == v && TrunkAuthId(v) != TrunkAuthId(u)
    ensures |s.trunks[u].identifyIps| <= MAX_IDENTIFIES
  {
    assert WellFormed(u, s.trunks[u]) && WellFormed(v, s.trunks[v]);
    if TrunkAuthId(u) == TrunkAuthId(v) { EndpointAndAuthIdsInjective(u, v); }
  }

  /** No other trunk loses or gains a row. */
  lemma WriteTouchesOwn(s: Store, foreign: Tables, u: Uuid, cleared: set<string>, v: Uuid)
    requires AllWellFormed(s.trunks) && EndpointsDistinct(s.trunks, foreign) && OwnIds(s.tables.identifies, s.trunks)
    requires u in s.trunks && OnlyOwn(s, foreign, u, cleared) && v in s.trunks && v != u
    ensures RowsOf(Rewritten(s.tables, u, s.trunks[u], cleared), s.trunks[v]) == RowsOf(s.tables, s.trunks[v])
  {
    var t, endpointId := s.trunks[u], s.trunks[v].pjsipEndpointId;
    OthersDiffer(s, foreign, u, v);
    OnlyKept(s.tables.endpoints, cleared, endpointId, EndpointPart(t));
    OnlyKept(s.tables.aors, cleared, endpointId, AorPart(t));
    OnlyKept(s.tables.auths, {TrunkAuthId(u)}, TrunkAuthId(v), AuthPart(t));
    IdentifiesApart(s, u, v);
    RowsKept(s.tables.identifies, cleared, endpointId, IdentifyPart(t));
  }

  lemma IdentifiesApart(s: Store, u: Uuid, v: Uuid)
    requires OwnIds(s.tables.identifies, s.trunks) && u in s.trunks && v in s.trunks && u != v
    requires IsUuid(u) && IsUuid(v) && s.trunks[u].id == u && |s.trunks[u].identifyIps| <= MAX_IDENTIFIES
    requires s.trunks[u].pjsipEndpointId != s.trunks[v].pjsipEndpointId
    ensures var part, endpointId := IdentifyPart(s.trunks[u]), s.trunks[v].pjsipEndpointId;
            forall k :: k in part ==> part[k].endpoint != endpointId && k !in RowsAt(s.tables.identifies, endpointId)
  {
    var part := IdentifyPart(s.trunks[u]);
    IdentifyPartBelongs(u, s.trunks[u]);
    forall k | k in part ensures k !in RowsAt(s.tables.identifies, s.trunks[v].pjsipEndpointId) {
      if k in RowsAt(s.tables.identifies, s.trunks[v].pjsipEndpointId) { BelongsToOne(k, u, v); }
    }
  }

  // ---------- Removing rows ----------

  lemma RemoveKeepsSane(s: Store, foreign: Tables, u: Uuid)
    requires Sane(s, foreign) && ForeignRows(foreign) && u in s.trunks
    ensures Sane(s.(tables := Remove(s.tables, s.trunks[u].pjsipEndpointId, u)), foreign)
  {
    assert WellFormed(u, s.trunks[u]);
    DerivedIdsFit(u, 0);
    assert TrunkAuthId(u) !in foreign.auths;
  }

  lemma RemoveTouchesOwn(s: Store, foreign: Tables, u: Uuid, v: Uuid)
    requires AllWellFormed(s.trunks) && EndpointsDistinct(s.trunks, foreign)
    requires u in s.trunks && v in s.trunks && v != u
    ensures RowsOf(Remove(s.tables, s.trunks[u].pjsipEndpointId, u), s.trunks[v]) == RowsOf(s.tables, s.trunks[v])
  {
    var cleared, endpointId := {s.trunks[u].pjsipEndpointId}, s.trunks[v].pjsipEndpointId;
    OthersDiffer(s, foreign, u, v);
    OnlyKept(s.tables.endpoints, cleared, endpointId, map[]);
    OnlyKept(s.tables.aors, cleared, endpointId, map[]);
    OnlyKept(s.tables.auths, {TrunkAuthId(u)}, TrunkAuthId(v), map[]);
    RowsKept(s.tables.identifies, cleared, endpointId, map[]);
  }

  lemma ForgetKeepsSane(s: Store, foreign: Tables, u: Uuid)
    requires Sane(s, foreign)
    ensures Sane(s.(trunks := s.trunks - {u}), foreign)
  {
  }

  // ---------- Operations ----------

  /** What one operation on trunk u did: the state stays sane, no other trunk is touched, and success
      means that u has exactly its rows, or is gone. */
  ghost predicate Contained(s: Store, s': Store, foreign: Tables, u: Uuid, ok: bool) {
    && Sane(s', foreign)
    && (forall v {:trigger Untouched(s, s', v)} :: v != u ==> Untouched(s, s', v))
    && (ok && u in s'.trunks ==> InSync(s'.tables, s'.trunks[u]))
  }

  lemma WriteContained(s: Store, foreign: Tables, u: Uuid, cleared: set<string>) returns (s': Store)
    requires Sane(s, foreign) && ForeignRows(foreign) && u in s.trunks && OnlyOwn(s, foreign, u, cleared)
    requires s.trunks[u].pjsipEndpointId in cleared
    ensures s' == s.(tables := Rewritten(s.tables, u, s.trunks[u], cleared)) && Contained(s, s', foreign, u, true)
  {
    s' := s.(tables := Rewritten(s.tables, u, s.trunks[u], cleared));
    WriteKeepsSane(s, foreign, u, cleared);
    WriteSyncs(s.tables, u, s.trunks[u], cleared);
    forall v | v != u ensures Untouched(s, s', v) {
      if v in s.trunks { WriteTouchesOwn(s, foreign, u, cleared, v); }
    }
  }

  lemma NothingContained(s: Store, foreign: Tables, u: Uuid)
    requires Sane(s, foreign)
    ensures Contained(s, s, foreign, u, false)
  {
  }

  /** Provisioning a stored trunk, whose endpoint id may just have changed. */
  lemma ProvisionContained(s: Store, foreign: Tables, u: Uuid, previous: Option<string>, links: Links)
    returns (s': Store, ok: bool)
    requires Sane(s, foreign) && ForeignRows(foreign) && u in s.trunks
    requires OnlyOwn(s, foreign, u, Cleared(previous, s.trunks[u].pjsipEndpointId))
    requires previous.Some? ==> Trimmed(previous.value)
    ensures s' == Provision(s, s.trunks[u], previous, links).0
            && ok == Provision(s, s.trunks[u], previous, links).1.Ok?
    ensures Contained(s, s', foreign, u, ok)
  {
    var input := InputFor(s.trunks[u], previous);
    assert WellFormed(u, s.trunks[u]);
    if links.realtime == Failed || !RowsFit(input) {
      s', ok := s, false;
      NothingContained(s, foreign, u);
    } else {
      UpsertTables(s.tables, u, s.trunks[u], previous);
      s' := WriteContained(s, foreign, u, Cleared(previous, s.trunks[u].pjsipEndpointId));
      ok := links.realtime == Done;
    }
  }

  lemma ClearedIsOwn(s: Store, foreign: Tables, u: Uuid, t: Trunk)
    requires AllWellFormed(s.trunks) && EndpointsDistinct(s.trunks, foreign) && Free(s, foreign, u, t.pjsipEndpointId)
    ensures var previous := PreviousId(s.trunks, u, t.pjsipEndpointId);
            && OnlyOwn(s.(trunks := s.trunks[u := t]), foreign, u, Cleared(previous, t.pjsipEndpointId))
            && (previous.Some? ==> Trimmed(previous.value))
  {
    if u in s.trunks { assert WellFormed(u, s.trunks[u]); }
  }

  lemma SaveContained(s: Store, foreign: Tables, u: Uuid, t: Trunk, links: Links)
    requires Sane(s, foreign) && ForeignRows(foreign) && WellFormed(u, t)
    requires Available(s, foreign, u, t.pjsipEndpointId)
    ensures var (s', result) := SaveAndProvision(s, t, PreviousId(s.trunks, u, t.pjsipEndpointId), links);
            Contained(s, s', foreign, u, result.Ok?)
  {
    var previous, saved := PreviousId(s.trunks, u, t.pjsipEndpointId), s.(trunks := s.trunks[u := t]);
    if links.Saves() {
      SaveKeepsSane(s, foreign, u, t);
      if links.trunks == Done {
        ClearedIsOwn(s, foreign, u, t);
        var s', ok := ProvisionContained(saved, foreign, u, previous, links);
        ContainedAfterSave(s, s', foreign, u, t, ok);
      } else {
        NothingContained(saved, foreign, u);
        ContainedAfterSave(s, saved, foreign, u, t, false);
      }
    }
  }

  lemma ContainedAfterSave(s: Store, s': Store, foreign: Tables, u: Uuid, t: Trunk, ok: bool)
    requires Contained(s.(trunks := s.trunks[u := t]), s', foreign, u, ok)
    ensures Contained(s, s', foreign, u, ok)
  {
    forall v | v != u ensures Untouched(s, s', v) {
      assert Untouched(s.(trunks := s.trunks[u := t]), s', v);
    }
  }

  lemma AssertedIsAvailable(s: Store, foreign: Tables, u: Uuid, endpointId: string)
    requires EndpointsDistinct(s.trunks, foreign) && ForeignHeld(s.tables, foreign)
    requires AssertAvailable(s, endpointId, if u in s.trunks then Some(u) else None) == None
    ensures Available(s, foreign, u, endpointId)
  {
  }

  lemma SyncContained(s: Store, foreign: Tables, tenantId: Option<string>, id: Uuid, links: Links)
    requires Sane(s, foreign) && ForeignRows(foreign)
    ensures var (s', result) := SyncTrunk(s, tenantId, id, links); Contained(s, s', foreign, id, result.Ok?)
  {
    SyncAccepts(s, tenantId, id);
    if FindForTenant(s, tenantId, id).Ok? {
      var s', ok := ProvisionContained(s, foreign, id, None, links);
    }
  }

  lemma DeleteContained(s: Store, foreign: Tables, tenantId: Option<string>, id: Uuid, links: Links)
    requires Sane(s, foreign) && ForeignRows(foreign)
    ensures var (s', result) := DeleteTrunk(s, tenantId, id, links); Contained(s, s', foreign, id, result.Ok?)
  {
    var s' := DeleteComputes(s, tenantId, id, links);
    if FindForTenant(s, tenantId, id).Ok? && links.realtime != Failed {
      RemoveContained(s, foreign, id);
      if links.Deletes() { ForgetContained(s, foreign, id); }
    }
  }

  lemma RemoveContained(s: Store, foreign: Tables, u: Uuid)
    requires Sane(s, foreign) && ForeignRows(foreign) && u in s.trunks
    ensures Contained(s, s.(tables := Remove(s.tables, s.trunks[u].pjsipEndpointId, u)), foreign, u, false)
  {
    var s' := s.(tables := Remove(s.tables, s.trunks[u].pjsipEndpointId, u));
    RemoveKeepsSane(s, foreign, u);
    forall v | v != u ensures Untouched(s, s', v) {
      if v in s.trunks { RemoveTouchesOwn(s, foreign, u, v); }
    }
  }

  lemma ForgetContained(s: Store, foreign: Tables, u: Uuid)
    requires Sane(s, foreign) && ForeignRows(foreign) && u in s.trunks
    ensures Contained(s, Store(s.trunks - {u}, Remove(s.tables, s.trunks[u].pjsipEndpointId, u)), foreign, u, true)
  {
    var removed := s.(tables := Remove(s.tables, s.trunks[u].pjsipEndpointId, u));
    RemoveContained(s, foreign, u);
    ForgetKeepsSane(removed, foreign, u);
    var s' := removed.(trunks := s.trunks - {u});
    forall v | v != u ensures Untouched(s, s', v) {
      assert Untouched(s, removed, v);
    }
  }

  lemma AcceptedContained(s: Store, foreign: Tables, r: Request)
    requires Sane(s, foreign) && ForeignRows(foreign) && Plausible(s, r.op) && (r.op.Create? || r.op.Update?)
    ensures var (s', result) := Apply(s, r); Contained(s, s', foreign, r.op.id, result.Ok?)
  {
    if Accepted(s, r).Ok? {
      AcceptedIsWellFormed(s, r);
      AssertedIsAvailable(s, foreign, r.op.id, Accepted(s, r).value.pjsipEndpointId);
      SaveContained(s, foreign, r.op.id, Accepted(s, r).value, r.links);
    }
  }

  /** Whatever fails, an operation touches only its own trunk; when it reports success the trunk has
      exactly its rows. */
  lemma OpContained(s: Store, foreign: Tables, r: Request)
    requires Sane(s, foreign) && ForeignRows(foreign) && Plausible(s, r.op)
    ensures var (s', result) := Apply(s, r); Contained(s, s', foreign, r.op.id, result.Ok?)
  {
    match r.op
    case Create(id, dto) => AcceptedContained(s, foreign, r);
    case Update(id, dto) => AcceptedContained(s, foreign, r);
    case Delete(id) => DeleteContained(s, foreign, r.tenantId, id, r.links);
    case Sync(id) => SyncContained(s, foreign, r.tenantId, id, r.links);
  }

  // ---------- Runs ----------

  /** Trunks whose last effective operation reported an error. */
  ghost function StaleAfter(stale: set<Uuid>, s: Store, r: Request): set<Uuid> {
    var (s', result) := Apply(s, r);
    if result.Ok? then stale - {r.op.id} else if s' == s then stale else stale + {r.op.id}
  }

  ghost function StaleAfterAll(stale: set<Uuid>, s: Store, requests: seq<Request>): set<Uuid>
    decreases |requests|
  {
    if requests == [] then stale
    else StaleAfterAll(StaleAfter(stale, s, requests[0]), Apply(s, requests[0]).0, requests[1..])
  }

  lemma SyncedAfter(s: Store, s': Store, foreign: Tables, u: Uuid, ok: bool, stale: set<Uuid>)
    requires SyncedBut(s, stale) && Contained(s, s', foreign, u, ok)
    ensures SyncedBut(s', if ok then stale - {u} else if s' == s then stale else stale + {u})
  {
    forall v | v in s'.trunks && v !in stale && v != u ensures InSync(s'.tables, s'.trunks[v]) {
      assert Untouched(s, s', v);
    }
  }

  /** Main result: in every run, with any failures at any point, each trunk whose last effective operation
      succeeded has exactly its rows, and every foreign row is as it was. */
  lemma {:induction false} RunsStaySynced(s: Store, foreign: Tables, stale: set<Uuid>, requests: seq<Request>)
    requires Sane(s, foreign) && ForeignRows(foreign) && SyncedBut(s, stale) && PlausibleRun(s, requests)
    ensures Sane(ApplyAll(s, requests), foreign)
    ensures SyncedBut(ApplyAll(s, requests), StaleAfterAll(stale, s, requests))
    decreases |requests|
  {
    if requests != [] {
      var (s', result) := Apply(s, requests[0]);
      OpContained(s, foreign, requests[0]);
      SyncedAfter(s, s', foreign, requests[0].op.id, result.Ok?, stale);
      RunsStaySynced(s', foreign, StaleAfter(stale, s, requests[0]), requests[1..]);
    }
  }

  /** A trunk no request of the run is about keeps its entry and its rows, whatever fails. */
  lemma {:induction false} OthersUntouched(s: Store, foreign: Tables, requests: seq<Request>, v: Uuid)
    requires Sane(s, foreign) && ForeignRows(foreign) && PlausibleRun(s, requests)
    requires forall r <- requests :: r.op.id != v
    ensures Untouched(s, ApplyAll(s, requests), v)
    decreases |requests|
  {
    if requests != [] {
      var s' := Apply(s, requests[0]).0;
      OpContained(s, foreign, requests[0]);
      assert Untouched(s, s', v);
      OthersUntouched(s', foreign, requests[1..], v);
    }
  }

  // ---------- Exact tables are sane ----------

  lemma ConsistentIsSane(s: Store, foreign: Tables)
    requires Consistent(s, foreign) && ForeignRows(foreign)
    ensures Sane(s, foreign) && SyncedBut(s, {})
  {
    ConsistentIsDistinct(s, foreign);
    ConsistentIdentifies(s, foreign);
    forall u | u in s.trunks ensures InSync(s.tables, s.trunks[u]) { ConsistentIsSynced(s, foreign, u); }
  }

  lemma ConsistentIsDistinct(s: Store, foreign: Tables)
    requires IsImage(s.tables.endpoints, Parts(s.trunks, EndpointPart), foreign.endpoints)
    ensures EndpointsDistinct(s.trunks, foreign)
  {
    forall u | u in s.trunks ensures Free(s, foreign, u, s.trunks[u].pjsipEndpointId) {
      OwnEndpointFree(s, foreign, u);
    }
  }

  lemma IdentifyOwner(trunks: map<Uuid, Trunk>, table: map<string, IdentifyRow>, k: string) returns (u: Uuid)
    requires IsImage(table, Parts(trunks, IdentifyPart), map[]) && AllWellFormed(trunks) && k in table
    ensures u in trunks && k in IdentifyPart(trunks[u]) && BelongsTo(k, u)
    ensures table[k] == IdentifyPart(trunks[u])[k] && table[k].endpoint == trunks[u].pjsipEndpointId
  {
    u :| u in Parts(trunks, IdentifyPart) && k in Parts(trunks, IdentifyPart)[u];
    assert WellFormed(u, trunks[u]);
    IdentifyPartBelongs(u, trunks[u]);
  }

  lemma EndpointHeld(trunks: map<Uuid, Trunk>, table: map<string, EndpointRow>, foreign: map<string, EndpointRow>,
                     u: Uuid)
    requires Holds(table, Parts(trunks, EndpointPart), foreign) && u in trunks
    ensures trunks[u].pjsipEndpointId in table
  {
    assert trunks[u].pjsipEndpointId in Parts(trunks, EndpointPart)[u];
  }

  lemma ConsistentIdentifies(s: Store, foreign: Tables)
    requires Consistent(s, foreign) && ForeignRows(foreign) && EndpointsDistinct(s.trunks, foreign)
    ensures Referential(s.tables) && OwnIds(s.tables.identifies, s.trunks)
  {
    forall k | k in s.tables.identifies ensures s.tables.identifies[k].endpoint in s.tables.endpoints {
      var u := IdentifyOwner(s.trunks, s.tables.identifies, k);
      EndpointHeld(s.trunks, s.tables.endpoints, foreign.endpoints, u);
    }
    IdentifiesAreOwn(s.trunks, s.tables.identifies, foreign);
  }

  lemma IdentifiesAreOwn(trunks: map<Uuid, Trunk>, table: map<string, IdentifyRow>, foreign: Tables)
    requires IsImage(table, Parts(trunks, IdentifyPart), map[]) && AllWellFormed(trunks)
    requires EndpointsDistinct(trunks, foreign)
    ensures OwnIds(table, trunks)
  {
    forall k, v | k in table && v in trunks && table[k].endpoint == trunks[v].pjsipEndpointId ensures BelongsTo(k, v) {
      var u := IdentifyOwner(trunks, table, k);
    }
  }

  lemma ConsistentIsSynced(s: Store, foreign: Tables, u: Uuid)
    requires Consistent(s, foreign) && ForeignRows(foreign) && EndpointsDistinct(s.trunks, foreign) && u in s.trunks
    ensures InSync(s.tables, s.trunks[u])
  {
    var t := s.trunks[u];
    assert WellFormed(u, t);
    AuthIdFree(s.trunks, foreign, u);
    OnlyPart(s.tables.endpoints, Parts(s.trunks, EndpointPart), foreign.endpoints, u, t.pjsipEndpointId);
    OnlyPart(s.tables.aors, Parts(s.trunks, AorPart), foreign.aors, u, t.pjsipEndpointId);
    OnlyPart(s.tables.auths, Parts(s.trunks, AuthPart), foreign.auths, u, TrunkAuthId(u));
    IdentifiesAreSynced(s.trunks, s.tables.identifies, foreign, u);
  }

  lemma OnlyPart<R>(table: map<string, R>, parts: map<Uuid, map<string, R>>, foreign: map<string, R>, u: Uuid,
                    key: string)
    requires Holds(table, parts, foreign) && Covered(table, parts, foreign) && u in parts && parts[u].Keys <= {key}
    requires key !in foreign && forall v :: v in parts && v != u ==> key !in parts[v]
    ensures Only(table, key) == parts[u]
  {
    forall k | k in parts[u] ensures k == key && k in table && table[k] == parts[u][k] {
      assert k in parts[u].Keys;
    }
    if key in table {
      var v :| v in parts && key in parts[v];
    }
  }

  lemma IdentifiesAreSynced(trunks: map<Uuid, Trunk>, table: map<string, IdentifyRow>, foreign: Tables, u: Uuid)
    requires IsImage(table, Parts(trunks, IdentifyPart), map[]) && AllWellFormed(trunks)
    requires EndpointsDistinct(trunks, foreign) && u in trunks
    ensures RowsAt(table, trunks[u].pjsipEndpointId) == IdentifyPart(trunks[u])
  {
    var rows, part := RowsAt(table, trunks[u].pjsipEndpointId), IdentifyPart(trunks[u]);
    forall k | k in rows ensures k in part && part[k] == rows[k] {
      RowIsOwn(trunks, table, foreign, u, k);
    }
    forall k | k in part ensures k in rows {
      IdentifyRowOwner(trunks, table, u, k);
    }
    SameMap(rows, part);
  }

  lemma SameMap<R>(a: map<string, R>, b: map<string, R>)
    requires forall k :: k in a ==> k in b && b[k] == a[k]
    requires forall k :: k in b ==> k in a
    ensures a == b
  {
  }

  lemma RowIsOwn(trunks: map<Uuid, Trunk>, table: map<string, IdentifyRow>, foreign: Tables, u: Uuid, k: string)
    requires IsImage(table, Parts(trunks, IdentifyPart), map[]) && AllWellFormed(trunks)
    requires EndpointsDistinct(trunks, foreign) && u in trunks
    requires k in table && table[k].endpoint == trunks[u].pjsipEndpointId
    ensures k in IdentifyPart(trunks[u]) && IdentifyPart(trunks[u])[k] == table[k]
  {
    var v := IdentifyOwner(trunks, table, k);
    assert v == u;
  }
}
