/** Exactly when the operations on trunks keep the realtime tables the image of the trunk table, and when a
    sync repairs them. */
module TrunkRuns {
  import opened Prelude
  import opened Trimming
  import opened TrunkIds
  import opened TrunkProvisioning
  import opened RowImage
  import opened TrunkImage

  // ---------- Column widths ----------

  /** A request may carry a password of up to 128 characters; the column of the auth row takes 80. */
  predicate PasswordFits(t: Trunk) {
    t.authMode == Credentials ==> Within(t.password, AUTH_PASSWORD_WIDTH)
  }

  /** The only thing about a stored trunk the realtime columns can refuse is its password. */
  lemma RowsFitIff(u: Uuid, t: Trunk, previous: Option<string>)
    requires WellFormed(u, t)
    ensures RowsFit(InputFor(t, previous)) <==> PasswordFits(t)
  {
    TrimResult(t.pjsipEndpointId);
  }

  /** No operation ever breaks a schema, whatever it is given and whichever of its writes fail. */
  lemma OpKeepsColumns(s: Store, r: Request)
    requires ColumnsFit(s.tables)
    ensures ColumnsFit(Apply(s, r).0.tables)
  {
    match r.op
    case Create(id, dto) => CreateFits(s, r.tenantId, id, dto, r.links);
    case Update(id, dto) => UpdateFits(s, r.tenantId, id, dto, r.links);
    case Delete(id) => DeleteFits(s, r.tenantId, id, r.links);
    case Sync(id) => SyncFits(s, r.tenantId, id, r.links);
  }

  lemma CreateFits(s: Store, tenantId: Option<string>, id: Uuid, dto: CreateDto, links: Links)
    requires ColumnsFit(s.tables)
    ensures ColumnsFit(CreateTrunk(s, tenantId, id, dto, links).0.tables)
  {
    var accepted := AcceptCreate(s, tenantId, id, dto);
    if accepted.Ok? { SaveFits(s, accepted.value, None, links); }
  }

  lemma UpdateFits(s: Store, tenantId: Option<string>, id: Uuid, dto: UpdateDto, links: Links)
    requires ColumnsFit(s.tables)
    ensures ColumnsFit(UpdateTrunk(s, tenantId, id, dto, links).0.tables)
  {
    var accepted := AcceptUpdate(s, tenantId, id, dto);
    if accepted.Ok? {
      SaveFits(s, accepted.value, PreviousId(s.trunks, id, accepted.value.pjsipEndpointId), links);
    }
  }

  lemma DeleteFits(s: Store, tenantId: Option<string>, id: Uuid, links: Links)
    requires ColumnsFit(s.tables)
    ensures ColumnsFit(DeleteTrunk(s, tenantId, id, links).0.tables)
  {
    if id in s.trunks { RemoveFits(s.tables, s.trunks[id].pjsipEndpointId, s.trunks[id].id); }
  }

  lemma SyncFits(s: Store, tenantId: Option<string>, id: Uuid, links: Links)
    requires ColumnsFit(s.tables)
    ensures ColumnsFit(SyncTrunk(s, tenantId, id, links).0.tables)
  {
    var accepted := AcceptSync(s, tenantId, id);
    if accepted.Ok? {
      SaveFits(s, accepted.value, PreviousId(s.trunks, id, accepted.value.pjsipEndpointId), links);
    }
  }

  lemma SaveFits(s: Store, t: Trunk, previous: Option<string>, links: Links)
    requires ColumnsFit(s.tables)
    ensures ColumnsFit(Provision(s, t, previous, links).0.tables)
    ensures ColumnsFit(SaveAndProvision(s, t, previous, links).0.tables)
  {
    ProvisionFits(s.tables, t, previous);
  }

  lemma RemoveFits(tables: Tables, endpointId: string, uuid: Uuid)
    requires ColumnsFit(tables)
    ensures ColumnsFit(Remove(tables, endpointId, uuid))
  {
  }

  lemma ProvisionFits(tables: Tables, t: Trunk, previous: Option<string>)
    requires ColumnsFit(tables)
    ensures RowsFit(InputFor(t, previous)) ==> ColumnsFit(Upsert(tables, InputFor(t, previous), t.id))
  {
    var input := InputFor(t, previous);
    if RowsFit(input) {
      LoginFits(tables, input, t.id);
      IdentifiesStayFit(tables, input, t.id);
    }
  }

  lemma LoginFits(tables: Tables, input: ProvisionInput, uuid: Uuid)
    requires EndpointsFit(tables.endpoints) && AorsFit(tables.aors) && AuthsFit(tables.auths) && RowsFit(input)
    ensures var tables' := Upsert(tables, input, uuid);
            EndpointsFit(tables'.endpoints) && AorsFit(tables'.aors) && AuthsFit(tables'.auths)
  {
  }

  lemma IdentifiesStayFit(tables: Tables, input: ProvisionInput, uuid: Uuid)
    requires IdentifiesFit(tables.identifies) && RowsFit(input)
    ensures IdentifiesFit(Upsert(tables, input, uuid).identifies)
  {
    if input.enabled {
      RowsUnderFit(IdentifyIds(uuid, |input.identifyMatches|), ProvisionedEndpoint(input), input.identifyMatches);
    }
  }

  lemma {:induction false} RowsUnderFit(keys: seq<string>, endpointId: string, matches: seq<string>)
    requires |keys| == |matches| && |endpointId| <= PJSIP_ID_MAX_LENGTH && MatchesFit(matches)
    requires forall i :: 0 <= i < |keys| ==> |keys[i]| <= PJSIP_ID_MAX_LENGTH
    ensures IdentifiesFit(RowsUnder(keys, endpointId, matches))
  {
    if matches != [] {
      RowsUnderFit(keys[..|keys| - 1], endpointId, matches[..|keys| - 1]);
    }
  }

  /** The password of a trunk that has its rows fits. */
  lemma StoredPasswordFits(s: Store, foreign: Tables, u: Uuid)
    requires IsImage(s.tables.auths, Parts(s.trunks, AuthPart), foreign.auths) && AuthsFit(s.tables.auths)
    requires u in s.trunks && s.trunks[u].id == u
    ensures PasswordFits(s.trunks[u])
  {
    if s.trunks[u].authMode == Credentials {
      assert TrunkAuthId(u) in Parts(s.trunks, AuthPart)[u];
    }
  }

  // ---------- A save whose provisioning fails ----------

  /** The matches a trunk is identified by. */
  function Matches(t: Trunk): seq<string> {
    if t.enabled then t.identifyIps else []
  }

  /** The two versions differ in nothing Asterisk is told. */
  predicate SameRows(t: Trunk, t': Trunk) {
    && t.pjsipEndpointId == t'.pjsipEndpointId && t.authMode == t'.authMode && Matches(t) == Matches(t')
    && (t.authMode == Credentials ==> t.password == t'.password)
  }

  lemma SameRowsIff(u: Uuid, t: Trunk, t': Trunk)
    requires WellFormed(u, t) && WellFormed(u, t')
    ensures SameRows(t, t') <==> EndpointPart(t) == EndpointPart(t') && AuthPart(t) == AuthPart(t')
                                 && IdentifyPart(t) == IdentifyPart(t')
  {
    if EndpointPart(t) == EndpointPart(t') {
      SameEndpoint(t, t');
      SameAuthIff(t, t');
      SameMatchesIff(u, t, t');
    }
  }

  lemma SameEndpoint(t: Trunk, t': Trunk)
    requires EndpointPart(t) == EndpointPart(t')
    ensures t.pjsipEndpointId == t'.pjsipEndpointId && t.authMode == t'.authMode
  {
    assert t.pjsipEndpointId in EndpointPart(t');
    assert EndpointPart(t)[t.pjsipEndpointId] == EndpointPart(t')[t.pjsipEndpointId];
  }

  lemma SameAuthIff(t: Trunk, t': Trunk)
    requires t.id == t'.id && t.authMode == t'.authMode && t.username == t'.username
    ensures AuthPart(t) == AuthPart(t') <==> (t.authMode == Credentials ==> t.password == t'.password)
  {
    if AuthPart(t) == AuthPart(t') && t.authMode == Credentials {
      assert AuthPart(t)[TrunkAuthId(t.id)] == AuthPart(t')[TrunkAuthId(t.id)];
    }
  }

  /** The rows give the matches back, in order. */
  lemma SameMatchesIff(u: Uuid, t: Trunk, t': Trunk)
    requires WellFormed(u, t) && WellFormed(u, t') && t.pjsipEndpointId == t'.pjsipEndpointId
    ensures IdentifyPart(t) == IdentifyPart(t') <==> Matches(t) == Matches(t')
  {
    var m, m' := Matches(t), Matches(t');
    IdentifyRowsExact(u, t.pjsipEndpointId, m);
    IdentifyRowsExact(u, t.pjsipEndpointId, m');
    if IdentifyPart(t) == IdentifyPart(t') {
      assert |m| == |m'|;
      forall i | 0 <= i < |m| ensures m[i] == m'[i] {
        assert IdentifyIds(u, |m|)[i] == IdentifyIds(u, |m'|)[i];
      }
    }
  }

  lemma PartDetermined<R>(table: map<string, R>, trunks: map<Uuid, Trunk>, foreign: map<string, R>, u: Uuid, t: Trunk,
                          part: Trunk -> map<string, R>)
    requires IsImage(table, Parts(trunks, part), foreign) && IsImage(table, Parts(trunks[u := t], part), foreign)
    ensures part(t) == if u in trunks then part(trunks[u]) else map[]
  {
    PartsPut(trunks, u, t, part);
    ImageDetermines(table, Parts(trunks, part), foreign, u, part(t));
  }

  lemma PartsSame<R>(trunks: map<Uuid, Trunk>, u: Uuid, t: Trunk, part: Trunk -> map<string, R>)
    requires u in trunks && part(t) == part(trunks[u])
    ensures Parts(trunks[u := t], part) == Parts(trunks, part)
  {
  }

  lemma RolledBackImage(tables: Tables, trunks: map<Uuid, Trunk>, foreign: Tables, u: Uuid, t: Trunk)
    requires TablesImage(tables, trunks, foreign) && TablesImage(tables, trunks[u := t], foreign)
    ensures u in trunks && EndpointPart(trunks[u]) == EndpointPart(t) && AuthPart(trunks[u]) == AuthPart(t)
            && IdentifyPart(trunks[u]) == IdentifyPart(t)
  {
    PartDetermined(tables.endpoints, trunks, foreign.endpoints, u, t, EndpointPart);
    assert t.pjsipEndpointId in EndpointPart(t);
    PartDetermined(tables.auths, trunks, foreign.auths, u, t, AuthPart);
    PartDetermined(tables.identifies, trunks, foreign.identifies, u, t, IdentifyPart);
  }

  lemma RolledBackSame(tables: Tables, trunks: map<Uuid, Trunk>, foreign: Tables, u: Uuid, t: Trunk)
    requires TablesImage(tables, trunks, foreign) && u in trunks && EndpointPart(trunks[u]) == EndpointPart(t)
    requires AorPart(trunks[u]) == AorPart(t) && AuthPart(trunks[u]) == AuthPart(t)
    requires IdentifyPart(trunks[u]) == IdentifyPart(t)
    ensures TablesImage(tables, trunks[u := t], foreign)
  {
    PartsSame(trunks, u, t, EndpointPart);
    PartsSame(trunks, u, t, AorPart);
    PartsSame(trunks, u, t, AuthPart);
    PartsSame(trunks, u, t, IdentifyPart);
  }

  /** When a trunk is saved and its rows are not, the tables are still the image iff the rows are the same. */
  lemma RolledBackIff(s: Store, foreign: Tables, u: Uuid, t: Trunk)
    requires Consistent(s, foreign) && WellFormed(u, t)
    ensures Consistent(s.(trunks := s.trunks[u := t]), foreign) <==> u in s.trunks && SameRows(s.trunks[u], t)
  {
    if u in s.trunks {
      assert WellFormed(u, s.trunks[u]);
      SameRowsIff(u, s.trunks[u], t);
      if SameRows(s.trunks[u], t) { RolledBackSame(s.tables, s.trunks, foreign, u, t); }
    }
    if TablesImage(s.tables, s.trunks[u := t], foreign) {
      RolledBackImage(s.tables, s.trunks, foreign, u, t);
    }
  }

  lemma PutSame<V>(m: map<Uuid, V>, u: Uuid)
    requires u in m
    ensures m[u := m[u]] == m
  {
  }

  /** A save leaves the image iff it does not happen, is provisioned, or changes no row. */
  lemma SaveIff(s: Store, foreign: Tables, u: Uuid, t: Trunk, links: Links)
    requires Consistent(s, foreign) && ForeignRows(foreign) && WellFormed(u, t)
    requires Free(s, foreign, u, t.pjsipEndpointId)
    ensures var previous := PreviousId(s.trunks, u, t.pjsipEndpointId);
            Consistent(SaveAndProvision(s, t, previous, links).0, foreign)
            <==> !links.Saves() || (links.Provisions() && PasswordFits(t))
                 || (u in s.trunks && SameRows(s.trunks[u], t))
  {
    RowsFitIff(u, t, PreviousId(s.trunks, u, t.pjsipEndpointId));
    if links.Saves() {
      if links.Provisions() && PasswordFits(t) {
        StoreKeepsImage(s, foreign, u, t);
      } else {
        RolledBackIff(s, foreign, u, t);
      }
    }
  }

  // ---------- Operations ----------

  /** New trunks get new uuids. Validation lets at most 80 characters through for a match and 128 for a
      password; a trunk gets at most ten million matches. */
  ghost predicate Plausible(s: Store, op: Op) {
    match op
    case Create(id, dto) =>
      IsUuid(id) && id !in s.trunks && PlausibleMatches(dto.identifyIps) && Within(dto.password, PASSWORD_LIMIT)
    case Update(_, dto) =>
      && (dto.identifyIps.Some? ==> PlausibleMatches(dto.identifyIps.value))
      && (dto.password.Some? ==> Within(dto.password.value, PASSWORD_LIMIT))
    case _ => true
  }

  const PASSWORD_LIMIT := 128

  lemma AvailableIsFree(s: Store, foreign: Tables, endpointId: string, u: Uuid)
    requires IsImage(s.tables.endpoints, Parts(s.trunks, EndpointPart), foreign.endpoints)
    requires AssertAvailable(s, endpointId, if u in s.trunks then Some(u) else None) == None
    ensures Free(s, foreign, u, endpointId)
  {
    if u in s.trunks { OwnEndpointFree(s, foreign, u); }
  }

  lemma ResolvedIsWellFormed(u: Uuid, t: Trunk)
    requires IsUuid(u) && t.id == u && MatchesUnique(t.identifyIps) && PlausibleMatches(t.identifyIps)
    requires t.authMode == Ip ==> t.username == None && t.password == None
    requires t.username.Some? ==> t.username.value == Trim(t.username.value)
    requires ResolveEndpointId(t.authMode, u, t.username) == Ok(t.pjsipEndpointId)
    ensures WellFormed(u, t)
  {
    DerivedIdsFit(u, 0);
    if t.username.Some? { TrimResult(t.username.value); }
  }

  lemma NewIsTrimmed(id: Uuid, tenantId: string, dto: CreateDto)
    ensures var t := NewTrunk(id, tenantId, dto);
            && (t.username.Some? ==> t.username.value == Trim(t.username.value))
            && (t.authMode == Ip ==> t.username == None && t.password == None)
            && t.id == id && t.identifyIps == dto.identifyIps
  {
    if dto.username.Some? { TrimTwice(dto.username.value); }
  }

  lemma TrimTwice(s: string)
    ensures Trim(Trim(s)) == Trim(s)
  {
    TrimResult(s);
    TrimResult(Trim(s));
  }

  lemma UpdatedIsTrimmed(trunk: Trunk, dto: UpdateDto)
    ensures var t := UpdatedTrunk(trunk, dto);
            && (t.username.Some? ==> t.username.value == Trim(t.username.value))
            && (t.authMode == Ip ==> t.username == None && t.password == None)
            && t.id == trunk.id && t.pjsipEndpointId == trunk.pjsipEndpointId
            && t.identifyIps == if dto.identifyIps.Some? then dto.identifyIps.value else trunk.identifyIps
  {
    var username := if dto.username.Some? then TrimOption(dto.username.value) else trunk.username;
    if username.Some? { TrimTwice(username.value); }
  }

  /** What create saves. */
  lemma CreateAccepts(s: Store, tenantId: Option<string>, id: Uuid, dto: CreateDto)
    requires Plausible(s, Create(id, dto)) && AcceptCreate(s, tenantId, id, dto).Ok?
    ensures var t := AcceptCreate(s, tenantId, id, dto).value;
            && WellFormed(id, t) && AssertAvailable(s, t.pjsipEndpointId, None) == None && tenantId == Some(t.tenantId)
            && t.authMode == dto.authMode && (dto.authMode == Credentials ==> t.password == dto.password)
  {
    NewIsTrimmed(id, tenantId.value, dto);
    ResolvedIsWellFormed(id, AcceptCreate(s, tenantId, id, dto).value);
  }

  /** What update saves. */
  lemma UpdateAccepts(s: Store, tenantId: Option<string>, id: Uuid, dto: UpdateDto)
    requires AllWellFormed(s.trunks)
    requires Plausible(s, Update(id, dto)) && AcceptUpdate(s, tenantId, id, dto).Ok?
    ensures var t := AcceptUpdate(s, tenantId, id, dto).value;
            && id in s.trunks && t == UpdatedTrunk(s.trunks[id], dto).(pjsipEndpointId := t.pjsipEndpointId)
            && WellFormed(id, t) && AssertAvailable(s, t.pjsipEndpointId, Some(id)) == None
            && tenantId == Some(t.tenantId)
  {
    assert WellFormed(id, s.trunks[id]);
    UpdatedIsTrimmed(s.trunks[id], dto);
    ResolvedIsWellFormed(id, AcceptUpdate(s, tenantId, id, dto).value);
  }

  /** What sync provisions: the trunk as it is stored. */
  lemma SyncAccepts(s: Store, tenantId: Option<string>, id: Uuid)
    requires AllWellFormed(s.trunks)
    ensures AcceptSync(s, tenantId, id) == FindForTenant(s, tenantId, id)
  {
    if FindForTenant(s, tenantId, id).Ok? {
      assert WellFormed(id, s.trunks[id]);
      TrimResult(s.trunks[id].pjsipEndpointId);
    }
  }

  /** A create leaves the image iff it is refused, not saved, or its rows are written: Asterisk is
      reachable and the password, if one is used, has at most 80 characters. */
  lemma CreateImageIff(s: Store, foreign: Tables, tenantId: Option<string>, id: Uuid, dto: CreateDto, links: Links)
    requires Consistent(s, foreign) && ForeignRows(foreign) && Plausible(s, Create(id, dto))
    ensures Consistent(CreateTrunk(s, tenantId, id, dto, links).0, foreign)
            <==> AcceptCreate(s, tenantId, id, dto).Err? || !links.Saves()
                 || (links.Provisions() && (dto.authMode == Credentials ==> Within(dto.password, AUTH_PASSWORD_WIDTH)))
  {
    var accepted := AcceptCreate(s, tenantId, id, dto);
    if accepted.Ok? {
      CreateAccepts(s, tenantId, id, dto);
      AvailableIsFree(s, foreign, accepted.value.pjsipEndpointId, id);
      SaveIff(s, foreign, id, accepted.value, links);
    }
  }

  /** An update leaves the image iff it is refused, not saved, its rows are written, or no row changes. */
  lemma UpdateImageIff(s: Store, foreign: Tables, tenantId: Option<string>, id: Uuid, dto: UpdateDto, links: Links)
    requires Consistent(s, foreign) && ForeignRows(foreign) && Plausible(s, Update(id, dto))
    ensures var accepted := AcceptUpdate(s, tenantId, id, dto);
            Consistent(UpdateTrunk(s, tenantId, id, dto, links).0, foreign)
            <==> accepted.Err? || !links.Saves() || (links.Provisions() && PasswordFits(accepted.value))
                 || SameRows(s.trunks[id], accepted.value)
  {
    var accepted := AcceptUpdate(s, tenantId, id, dto);
    if accepted.Ok? {
      UpdateAccepts(s, tenantId, id, dto);
      AvailableIsFree(s, foreign, accepted.value.pjsipEndpointId, id);
      SaveIff(s, foreign, id, accepted.value, links);
    }
  }

  /** A delete leaves the image iff it is refused, fails on the rows, or deletes both: a trunk that outlives
      its rows breaks it. */
  lemma DeleteImageIff(s: Store, foreign: Tables, tenantId: Option<string>, id: Uuid, links: Links)
    requires Consistent(s, foreign) && ForeignRows(foreign)
    ensures Consistent(DeleteTrunk(s, tenantId, id, links).0, foreign)
            <==> FindForTenant(s, tenantId, id).Err? || links.realtime == Failed || links.Deletes()
  {
    var s' := DeleteComputes(s, tenantId, id, links);
    if FindForTenant(s, tenantId, id).Ok? && links.realtime != Failed {
      if links.Deletes() {
        DeleteKeepsImage(s, foreign, id);
      } else {
        RemovedRowsMissing(s, foreign, id);
      }
    }
  }

  lemma DeleteComputes(s: Store, tenantId: Option<string>, id: Uuid, links: Links) returns (s': Store)
    requires AllWellFormed(s.trunks)
    ensures s' == DeleteTrunk(s, tenantId, id, links).0
    ensures s' == if FindForTenant(s, tenantId, id).Err? || links.realtime == Failed then s
                  else
                    Store(if links.Deletes() then s.trunks - {id} else s.trunks,
                          Remove(s.tables, s.trunks[id].pjsipEndpointId, id))
  {
    s' := DeleteTrunk(s, tenantId, id, links).0;
    if FindForTenant(s, tenantId, id).Ok? { assert WellFormed(id, s.trunks[id]); }
  }

  lemma RemovedRowsMissing(s: Store, foreign: Tables, u: Uuid)
    requires u in s.trunks
    ensures !Consistent(s.(tables := Remove(s.tables, s.trunks[u].pjsipEndpointId, u)), foreign)
  {
    OwnRowHeld(Remove(s.tables, s.trunks[u].pjsipEndpointId, u), s.trunks, foreign, u);
  }

  lemma OwnRowHeld(tables: Tables, trunks: map<Uuid, Trunk>, foreign: Tables, u: Uuid)
    requires u in trunks
    ensures TablesImage(tables, trunks, foreign) ==> trunks[u].pjsipEndpointId in tables.endpoints
  {
    assert trunks[u].pjsipEndpointId in Parts(trunks, EndpointPart)[u];
  }

  /** What sync does to any well-formed trunk. */
  lemma SyncComputes(s: Store, tenantId: Option<string>, id: Uuid, links: Links)
    requires AllWellFormed(s.trunks) && FindForTenant(s, tenantId, id).Ok?
    ensures var t := s.trunks[id];
            SyncTrunk(s, tenantId, id, links)
            == if links.realtime == Failed || !PasswordFits(t) then (s, Err(ProvisioningFailed))
               else (s.(tables := Upsert(s.tables, InputFor(t, None), id)),
                     if links.realtime == Done then Ok(t) else Err(ProvisioningFailed))
  {
    assert WellFormed(id, s.trunks[id]);
    SyncAccepts(s, tenantId, id);
    RowsFitIff(id, s.trunks[id], None);
  }

  /** On exact tables a sync changes nothing, whether or not it goes through. */
  lemma SyncChangesNothing(s: Store, foreign: Tables, tenantId: Option<string>, id: Uuid, links: Links)
    requires Consistent(s, foreign) && ForeignRows(foreign)
    ensures SyncTrunk(s, tenantId, id, links).0 == s
  {
    if FindForTenant(s, tenantId, id).Ok? {
      SyncComputes(s, tenantId, id, links);
      RewriteIsIdentity(s, foreign, id);
    } else {
      SyncAccepts(s, tenantId, id);
    }
  }

  lemma RewriteIsIdentity(s: Store, foreign: Tables, u: Uuid)
    requires Consistent(s, foreign) && ForeignRows(foreign) && u in s.trunks
    ensures Upsert(s.tables, InputFor(s.trunks[u], None), u) == s.tables
  {
    assert WellFormed(u, s.trunks[u]);
    OwnEndpointFree(s, foreign, u);
    StoreKeepsImage(s, foreign, u, s.trunks[u]);
    PutSame(s.trunks, u);
    TablesUnique(Provisioned(s, u, s.trunks[u]).tables, s.tables, s.trunks, foreign);
  }

  lemma TablesUnique(tables: Tables, tables': Tables, trunks: map<Uuid, Trunk>, foreign: Tables)
    requires TablesImage(tables, trunks, foreign) && TablesImage(tables', trunks, foreign)
    ensures tables == tables'
  {
    ImageUnique(tables.endpoints, tables'.endpoints, Parts(trunks, EndpointPart), foreign.endpoints);
    ImageUnique(tables.aors, tables'.aors, Parts(trunks, AorPart), foreign.aors);
    ImageUnique(tables.auths, tables'.auths, Parts(trunks, AuthPart), foreign.auths);
    ImageUnique(tables.identifies, tables'.identifies, Parts(trunks, IdentifyPart), foreign.identifies);
  }

  // ---------- Repair by sync ----------

  /** A create with a password of 81 to 128 characters is saved and reported as failed; the trunk has no
      rows, and no sync ever gives it any. */
  lemma LongPasswordLeavesNoRows(s: Store, tenantId: Option<string>, id: Uuid, dto: CreateDto, links: Links)
    requires AllWellFormed(s.trunks) && Plausible(s, Create(id, dto))
    requires AcceptCreate(s, tenantId, id, dto).Ok? && dto.authMode == Credentials
    requires dto.password.Some? && |dto.password.value| > 80
    ensures var t := AcceptCreate(s, tenantId, id, dto).value;
            var (s', result) := CreateTrunk(s, tenantId, id, dto, Links(Done, Done));
            && result == Err(ProvisioningFailed) && s' == Store(s.trunks[id := t], s.tables)
            && t.pjsipEndpointId !in s'.tables.endpoints
            && SyncTrunk(s', tenantId, id, links) == (s', Err(ProvisioningFailed))
  {
    var t := AcceptCreate(s, tenantId, id, dto).value;
    CreateAccepts(s, tenantId, id, dto);
    RowsFitIff(id, t, None);
    AllWellFormedPut(s.trunks, id, t);
    SyncComputes(Store(s.trunks[id := t], s.tables), tenantId, id, links);
  }

  /** After a create or update that was saved but not provisioned, a sync that reaches Asterisk makes the
      tables exact iff the password fits and the endpoint id did not change: the rows under the old id are
      never removed, because sync no longer knows it. */
  lemma SyncRepairsIff(s: Store, foreign: Tables, r: Request, links: Links)
    requires Consistent(s, foreign) && ColumnsFit(s.tables) && ForeignRows(foreign) && Plausible(s, r.op)
    requires (r.op.Create? || r.op.Update?) && Accepted(s, r).Ok? && r.links.Saves()
    requires !r.links.Provisions() || !PasswordFits(Accepted(s, r).value)
    requires links.realtime != Failed
    ensures var s', t := Apply(s, r).0, Accepted(s, r).value;
            && Apply(s, r).1.Err? && s' == s.(trunks := s.trunks[r.op.id := t])
            && (Consistent(SyncTrunk(s', r.tenantId, r.op.id, links).0, foreign)
                <==> PasswordFits(t) && PreviousId(s.trunks, r.op.id, t.pjsipEndpointId) == None)
  {
    AcceptedIsFree(s, foreign, r);
    SavedOnly(s, r);
    RepairIff(s, foreign, r.op.id, Accepted(s, r).value, links);
  }

  lemma SavedOnly(s: Store, r: Request)
    requires (r.op.Create? || r.op.Update?) && Accepted(s, r).Ok? && WellFormed(r.op.id, Accepted(s, r).value)
    requires r.links.Saves() && (!r.links.Provisions() || !PasswordFits(Accepted(s, r).value))
    ensures Apply(s, r).1.Err? && Apply(s, r).0 == s.(trunks := s.trunks[r.op.id := Accepted(s, r).value])
  {
    var u, t := r.op.id, Accepted(s, r).value;
    RowsFitIff(u, t, if r.op.Create? then None else PreviousId(s.trunks, u, t.pjsipEndpointId));
  }

  /** The trunk a create or update saves, or why it is refused. */
  function Accepted(s: Store, r: Request): Result<Trunk, TrunkProvisioning.Error>
    requires r.op.Create? || r.op.Update?
  {
    match r.op
    case Create(id, dto) => AcceptCreate(s, r.tenantId, id, dto)
    case Update(id, dto) => AcceptUpdate(s, r.tenantId, id, dto)
  }

  lemma AcceptedIsFree(s: Store, foreign: Tables, r: Request)
    requires Consistent(s, foreign) && Plausible(s, r.op)
    requires (r.op.Create? || r.op.Update?) && Accepted(s, r).Ok?
    ensures var t := Accepted(s, r).value;
            WellFormed(r.op.id, t) && r.tenantId == Some(t.tenantId) && Free(s, foreign, r.op.id, t.pjsipEndpointId)
  {
    AcceptedIsWellFormed(s, r);
    AvailableIsFree(s, foreign, Accepted(s, r).value.pjsipEndpointId, r.op.id);
  }

  lemma AcceptedIsWellFormed(s: Store, r: Request)
    requires AllWellFormed(s.trunks) && Plausible(s, r.op)
    requires (r.op.Create? || r.op.Update?) && Accepted(s, r).Ok?
    ensures var t, u := Accepted(s, r).value, r.op.id;
            && WellFormed(u, t) && r.tenantId == Some(t.tenantId)
            && AssertAvailable(s, t.pjsipEndpointId, if u in s.trunks then Some(u) else None) == None
  {
    if r.op.Create? {
      CreateAccepts(s, r.tenantId, r.op.id, r.op.create);
    } else {
      UpdateAccepts(s, r.tenantId, r.op.id, r.op.update);
    }
  }

  lemma RepairIff(s: Store, foreign: Tables, u: Uuid, t: Trunk, links: Links)
    requires Consistent(s, foreign) && ColumnsFit(s.tables) && ForeignRows(foreign) && WellFormed(u, t)
    requires Free(s, foreign, u, t.pjsipEndpointId) && links.realtime != Failed
    ensures Consistent(SyncTrunk(s.(trunks := s.trunks[u := t]), Some(t.tenantId), u, links).0, foreign)
            <==> PasswordFits(t) && PreviousId(s.trunks, u, t.pjsipEndpointId) == None
  {
    SyncAfterRollback(s, u, t, links);
    if !PasswordFits(t) {
      LongPasswordStays(s, foreign, u, t);
    } else if PreviousId(s.trunks, u, t.pjsipEndpointId) == None {
      StoreKeepsImage(s, foreign, u, t);
    } else {
      RenamedStaysWrong(s, foreign, u, t);
    }
  }

  lemma SyncAfterRollback(s: Store, u: Uuid, t: Trunk, links: Links)
    requires AllWellFormed(s.trunks) && WellFormed(u, t) && links.realtime != Failed
    ensures SyncTrunk(s.(trunks := s.trunks[u := t]), Some(t.tenantId), u, links).0
            == Store(s.trunks[u := t], if PasswordFits(t) then Upsert(s.tables, InputFor(t, None), u) else s.tables)
  {
    AllWellFormedPut(s.trunks, u, t);
    SyncComputes(s.(trunks := s.trunks[u := t]), Some(t.tenantId), u, links);
  }

  lemma LongPasswordStays(s: Store, foreign: Tables, u: Uuid, t: Trunk)
    requires Consistent(s, foreign) && ColumnsFit(s.tables) && WellFormed(u, t) && !PasswordFits(t)
    ensures !Consistent(s.(trunks := s.trunks[u := t]), foreign)
  {
    RolledBackIff(s, foreign, u, t);
    if u in s.trunks {
      assert WellFormed(u, s.trunks[u]);
      StoredPasswordFits(s, foreign, u);
    }
  }

  lemma RenamedStaysWrong(s: Store, foreign: Tables, u: Uuid, t: Trunk)
    requires Consistent(s, foreign) && WellFormed(u, t) && PreviousId(s.trunks, u, t.pjsipEndpointId).Some?
    ensures !Consistent(Store(s.trunks[u := t], Upsert(s.tables, InputFor(t, None), u)), foreign)
  {
    UpsertEndpoints(s.tables, u, t, None);
    OldEndpointStays(s, foreign, u, t);
  }

  lemma OldEndpointStays(s: Store, foreign: Tables, u: Uuid, t: Trunk)
    requires IsImage(s.tables.endpoints, Parts(s.trunks, EndpointPart), foreign.endpoints)
    requires PreviousId(s.trunks, u, t.pjsipEndpointId).Some?
    ensures !Covered((s.tables.endpoints - {t.pjsipEndpointId}) + EndpointPart(t),
                     Parts(s.trunks[u := t], EndpointPart), foreign.endpoints)
  {
    var gone, parts' := s.trunks[u].pjsipEndpointId, Parts(s.trunks[u := t], EndpointPart);
    OwnEndpointFree(s, foreign, u);
    assert gone in Parts(s.trunks, EndpointPart)[u];
    forall v | v in parts' ensures gone !in parts'[v] {
      assert parts'[v] == EndpointPart(if v == u then t else s.trunks[v]);
    }
  }

  /** A trunk that outlived its rows gets exactly them back from a sync that reaches Asterisk. */
  lemma SyncUndoesHalfDelete(s: Store, foreign: Tables, tenantId: Option<string>, id: Uuid, half: Links, links: Links)
    requires Consistent(s, foreign) && ColumnsFit(s.tables) && ForeignRows(foreign) && links.realtime != Failed
    requires FindForTenant(s, tenantId, id).Ok? && half.realtime != Failed && !half.Deletes()
    ensures var (s', result) := DeleteTrunk(s, tenantId, id, half);
            && result.Err? && s'.trunks == s.trunks && s.trunks[id].pjsipEndpointId !in s'.tables.endpoints
            && SyncTrunk(s', tenantId, id, links).0 == s
  {
    var s' := DeleteComputes(s, tenantId, id, half);
    SyncComputes(s', tenantId, id, links);
    assert s.trunks[id].id == id;
    StoredPasswordFits(s, foreign, id);
    RemoveThenRewrite(s, foreign, id);
  }

  lemma RemovePut<V>(m: map<Uuid, V>, u: Uuid)
    requires u in m
    ensures (m - {u})[u := m[u]] == m
  {
  }

  lemma RemoveThenRewrite(s: Store, foreign: Tables, u: Uuid)
    requires Consistent(s, foreign) && ForeignRows(foreign) && u in s.trunks
    ensures Upsert(Remove(s.tables, s.trunks[u].pjsipEndpointId, u), InputFor(s.trunks[u], None), u) == s.tables
  {
    var t, removed := s.trunks[u], Store(s.trunks - {u}, Remove(s.tables, s.trunks[u].pjsipEndpointId, u));
    assert WellFormed(u, t);
    OwnEndpointFree(s, foreign, u);
    DeleteKeepsImage(s, foreign, u);
    StoreKeepsImage(removed, foreign, u, t);
    RemovePut(s.trunks, u);
    TablesUnique(Provisioned(removed, u, t).tables, s.tables, s.trunks, foreign);
  }

  // ---------- Runs ----------

  /** What a caller can check beforehand: the operation is refused or writes nothing to the trunk table, or
      its rows are written too, or are the rows there are. */
  ghost predicate Harmless(s: Store, r: Request) {
    match r.op
    case Create(id, dto) =>
      AcceptCreate(s, r.tenantId, id, dto).Err? || !r.links.Saves()
      || (r.links.Provisions() && (dto.authMode == Credentials ==> Within(dto.password, AUTH_PASSWORD_WIDTH)))
    case Update(id, dto) =>
      var accepted := AcceptUpdate(s, r.tenantId, id, dto);
      accepted.Err? || !r.links.Saves() || (r.links.Provisions() && PasswordFits(accepted.value))
      || SameRows(s.trunks[id], accepted.value)
    case Delete(id) => FindForTenant(s, r.tenantId, id).Err? || r.links.realtime == Failed || r.links.Deletes()
    case Sync(_) => true
  }

  lemma OpKeepsImageIff(s: Store, foreign: Tables, r: Request)
    requires Consistent(s, foreign) && ColumnsFit(s.tables) && ForeignRows(foreign) && Plausible(s, r.op)
    ensures Consistent(Apply(s, r).0, foreign) <==> Harmless(s, r)
  {
    match r.op
    case Create(id, dto) => CreateImageIff(s, foreign, r.tenantId, id, dto, r.links);
    case Update(id, dto) => UpdateImageIff(s, foreign, r.tenantId, id, dto, r.links);
    case Delete(id) => DeleteImageIff(s, foreign, r.tenantId, id, r.links);
    case Sync(id) => SyncChangesNothing(s, foreign, r.tenantId, id, r.links);
  }

  ghost predicate PlausibleRun(s: Store, requests: seq<Request>)
    decreases |requests|
  {
    requests == [] || (Plausible(s, requests[0].op) && PlausibleRun(Apply(s, requests[0]).0, requests[1..]))
  }

  /** Every state of the run, from the first to the last. */
  ghost predicate AlwaysConsistent(s: Store, foreign: Tables, requests: seq<Request>)
    decreases |requests|
  {
    && Consistent(s, foreign)
    && (requests == [] || AlwaysConsistent(Apply(s, requests[0]).0, foreign, requests[1..]))
  }

  ghost predicate AllHarmless(s: Store, requests: seq<Request>)
    decreases |requests|
  {
    requests == [] || (Harmless(s, requests[0]) && AllHarmless(Apply(s, requests[0]).0, requests[1..]))
  }

  /** Main result: over any run of trunk operations, the tables are exactly the image of the trunk table
      next to the untouched foreign rows after every operation iff every operation was harmless. */
  lemma {:induction false} RunsKeepImageIff(s: Store, foreign: Tables, requests: seq<Request>)
    requires Consistent(s, foreign) && ColumnsFit(s.tables) && ForeignRows(foreign) && PlausibleRun(s, requests)
    ensures AlwaysConsistent(s, foreign, requests) <==> AllHarmless(s, requests)
    decreases |requests|
  {
    if requests != [] {
      OpKeepsImageIff(s, foreign, requests[0]);
      OpKeepsColumns(s, requests[0]);
      if Harmless(s, requests[0]) {
        RunsKeepImageIff(Apply(s, requests[0]).0, foreign, requests[1..]);
      } else {
        assert !AlwaysConsistent(Apply(s, requests[0]).0, foreign, requests[1..]);
      }
    }
  }

  /** Both writes are done and confirmed, and no password is longer than its column. */
  predicate Careful(r: Request) {
    && r.links == Links(Done, Done)
    && (r.op.Create? ==> Within(r.op.create.password, AUTH_PASSWORD_WIDTH))
    && (r.op.Update? && r.op.update.password.Some? ==> Within(r.op.update.password.value, AUTH_PASSWORD_WIDTH))
  }

  lemma CarefulIsHarmless(s: Store, foreign: Tables, r: Request)
    requires Consistent(s, foreign) && ColumnsFit(s.tables) && Plausible(s, r.op) && Careful(r)
    ensures Harmless(s, r)
  {
    match r.op
    case Update(id, dto) =>
      if AcceptUpdate(s, r.tenantId, id, dto).Ok? { CarefulUpdate(s, foreign, r.tenantId, id, dto); }
    case _ =>
  }

  lemma CarefulUpdate(s: Store, foreign: Tables, tenantId: Option<string>, id: Uuid, dto: UpdateDto)
    requires Consistent(s, foreign) && ColumnsFit(s.tables) && Plausible(s, Update(id, dto))
    requires AcceptUpdate(s, tenantId, id, dto).Ok?
    requires dto.password.Some? ==> Within(dto.password.value, AUTH_PASSWORD_WIDTH)
    ensures PasswordFits(AcceptUpdate(s, tenantId, id, dto).value)
  {
    UpdateAccepts(s, tenantId, id, dto);
    assert WellFormed(id, s.trunks[id]);
    StoredPasswordFits(s, foreign, id);
  }

  /** Without failures and long passwords every run keeps the image. */
  lemma {:induction false} RunsKeepImage(s: Store, foreign: Tables, requests: seq<Request>)
    requires Consistent(s, foreign) && ColumnsFit(s.tables) && ForeignRows(foreign) && PlausibleRun(s, requests)
    requires forall r <- requests :: Careful(r)
    ensures Consistent(ApplyAll(s, requests), foreign)
    decreases |requests|
  {
    if requests != [] {
      CarefulIsHarmless(s, foreign, requests[0]);
      OpKeepsImageIff(s, foreign, requests[0]);
      OpKeepsColumns(s, requests[0]);
      RunsKeepImage(Apply(s, requests[0]).0, foreign, requests[1..]);
    }
  }

  /** Starting with no trunk and any extensions. */
  lemma NoTrunksConsistent(foreign: Tables)
    ensures Consistent(Store(map[], foreign), foreign)
  {
    assert Parts<EndpointRow>(map[], EndpointPart) == map[];
    assert Parts<AorRow>(map[], AorPart) == map[];
    assert Parts<AuthRow>(map[], AuthPart) == map[];
    assert Parts<IdentifyRow>(map[], IdentifyPart) == map[];
  }

  /** So from the start on, over any extensions whose rows fit their columns. */
  lemma EveryRunKeepsImageIff(foreign: Tables, requests: seq<Request>)
    requires ForeignRows(foreign) && ColumnsFit(foreign) && PlausibleRun(Store(map[], foreign), requests)
    ensures AlwaysConsistent(Store(map[], foreign), foreign, requests) <==> AllHarmless(Store(map[], foreign), requests)
  {
    NoTrunksConsistent(foreign);
    RunsKeepImageIff(Store(map[], foreign), foreign, requests);
  }
}
