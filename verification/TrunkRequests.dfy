/** What a create, an update and a delete do: the fields the request names, and the rows Asterisk reads. */
module TrunkRequests {
  import opened Prelude
  import opened Trimming
  import opened TrunkIds
  import opened TrunkProvisioning
  import opened RowImage
  import opened TrunkImage
  import opened TrunkRuns

  // ---------- Fields ----------

  /** A named field takes the value of the request, any other stays. */
  predicate Takes<T(==)>(now: T, wanted: Option<T>, before: T) {
    if wanted.Some? then now == wanted.value else now == before
  }

  /** The login of a trunk: none in address mode, else the username trimmed and the password as it is. */
  predicate LoginIs(t: Trunk, username: Option<string>, password: Option<string>) {
    if t.authMode == Ip then t.username == None && t.password == None
    else t.username.Some? == username.Some? && (username.Some? ==> t.username.value == Trim(username.value))
         && t.password == password
  }

  /** Every field of the trunk is what the update asks for. */
  predicate AskedBy(stored: Trunk, dto: UpdateDto, t: Trunk) {
    && t.id == stored.id && t.tenantId == stored.tenantId
    && Takes(t.name, dto.name, stored.name) && Takes(t.authMode, dto.authMode, stored.authMode)
    && Takes(t.enabled, dto.enabled, stored.enabled) && Takes(t.identifyIps, dto.identifyIps, stored.identifyIps)
    && LoginIs(t, if dto.username.Some? then dto.username.value else stored.username,
                  if dto.password.Some? then dto.password.value else stored.password)
  }

  /** Every field of the trunk is what the create asks for; it is enabled unless asked otherwise. */
  predicate NewlyAsked(tenantId: string, id: Uuid, dto: CreateDto, t: Trunk) {
    && t.id == id && t.tenantId == tenantId && t.name == dto.name && t.authMode == dto.authMode
    && (t.enabled <==> dto.enabled != Some(false)) && t.identifyIps == dto.identifyIps
    && LoginIs(t, dto.username, dto.password)
  }

  lemma EditedAsAsked(stored: Trunk, dto: UpdateDto)
    ensures AskedBy(stored, dto, UpdatedTrunk(stored, dto))
  {
    var username := if dto.username.Some? then dto.username.value else stored.username;
    if username.Some? { TrimTwice(username.value); }
  }

  /** What a trunk has to be like to be stored under this uuid. */
  ghost predicate Admissible(s: Store, u: Uuid, t: Trunk) {
    && (if t.authMode == Ip then t.identifyIps != [] && t.pjsipEndpointId == TrunkEndpointId(u)
        else t.username == Some(t.pjsipEndpointId) && Trimmed(t.pjsipEndpointId)
             && |t.pjsipEndpointId| <= PJSIP_ID_MAX_LENGTH
             && t.password.Some? && exists c <- t.password.value :: !IsSpace(c))
    && (forall i, j :: 0 <= i < j < |t.identifyIps| ==> t.identifyIps[i] != t.identifyIps[j])
    && (forall v :: v in s.trunks && v != u ==>
          s.trunks[v].pjsipEndpointId != t.pjsipEndpointId && s.trunks[v].username != Some(t.pjsipEndpointId))
    && (t.pjsipEndpointId in s.tables.endpoints ==>
          u in s.trunks && s.trunks[u].pjsipEndpointId == t.pjsipEndpointId)
  }

  /** The checks of the service, one after the other, let through what is admissible. */
  lemma ChecksIff(s: Store, u: Uuid, t: Trunk)
    requires t.username.Some? ==> Trim(t.username.value) == t.username.value
    requires t.authMode == Ip ==> t.username == None && t.password == None
    ensures Admissible(s, u, t)
            <==> AssertAuthFields(t.authMode, t.username, t.password, t.identifyIps) == None
                 && ResolveEndpointId(t.authMode, u, t.username) == Ok(t.pjsipEndpointId)
                 && AssertAvailable(s, t.pjsipEndpointId, if u in s.trunks then Some(u) else None) == None
                 && MatchesUnique(t.identifyIps)
  {
    LoginIff(t, u);
  }

  lemma LoginIff(t: Trunk, u: Uuid)
    requires t.username.Some? ==> Trim(t.username.value) == t.username.value
    ensures (if t.authMode == Ip then t.identifyIps != [] && t.pjsipEndpointId == TrunkEndpointId(u)
             else t.username == Some(t.pjsipEndpointId) && Trimmed(t.pjsipEndpointId)
                  && |t.pjsipEndpointId| <= PJSIP_ID_MAX_LENGTH
                  && t.password.Some? && exists c <- t.password.value :: !IsSpace(c))
            <==> AssertAuthFields(t.authMode, t.username, t.password, t.identifyIps) == None
                 && ResolveEndpointId(t.authMode, u, t.username) == Ok(t.pjsipEndpointId)
  {
    if t.username.Some? { TrimResult(t.username.value); }
    if t.password.Some? { var _, _ := TrimCuts(t.password.value); }
  }

  /** Each refusal of a login is for its own reason. */
  lemma LoginErrors(mode: AuthMode, username: Option<string>, password: Option<string>, identifyIps: seq<string>)
    ensures var error := AssertAuthFields(mode, username, password, identifyIps);
            var missing := username == None || Blank(username.value) || password == None || Blank(password.value);
            && (error == Some(IdentifyIpsRequired) <==> mode == Ip && |identifyIps| == 0)
            && (error == Some(CredentialsRequired) <==> mode == Credentials && missing)
            && (error == Some(UsernameTooLong) <==> mode == Credentials && !missing && |Trim(username.value)| > 40)
  {
    if username.Some? { var _, _ := TrimCuts(username.value); }
    if password.Some? { var _, _ := TrimCuts(password.value); }
  }

  // ---------- Requests ----------

  lemma SaveAnswers(s: Store, u: Uuid, t: Trunk, previous: Option<string>, links: Links)
    requires WellFormed(u, t)
    ensures var (s', result) := SaveAndProvision(s, t, previous, links);
            && result == (if links.trunks != Done then Err(TrunkWriteFailed)
                          else if links.realtime == Done && PasswordFits(t) then Ok(t)
                          else Err(ProvisioningFailed))
            && s'.trunks == if links.trunks == Failed then s.trunks else s.trunks[u := t]
  {
    RowsFitIff(u, t, previous);
  }

  lemma CreateAcceptsIff(s: Store, tenantId: string, id: Uuid, dto: CreateDto, t: Trunk)
    requires id !in s.trunks && NewlyAsked(tenantId, id, dto, t)
    ensures AcceptCreate(s, Some(tenantId), id, dto) == Ok(t) <==> Admissible(s, id, t)
  {
    if dto.username.Some? {
      TrimTwice(dto.username.value);
      TrimResult(dto.username.value);
    }
    assert NewTrunk(id, tenantId, dto) == t.(pjsipEndpointId := "");
    ChecksIff(s, id, t);
  }

  lemma UpdateAcceptsIff(s: Store, tenantId: Option<string>, id: Uuid, dto: UpdateDto, t: Trunk)
    requires id in s.trunks && s.trunks[id].id == id && AskedBy(s.trunks[id], dto, t)
    ensures AcceptUpdate(s, tenantId, id, dto) == Ok(t) <==> tenantId == Some(t.tenantId) && Admissible(s, id, t)
  {
    var draft := UpdatedTrunk(s.trunks[id], dto);
    EditedAsAsked(s.trunks[id], dto);
    UpdatedIsTrimmed(s.trunks[id], dto);
    assert draft == t.(pjsipEndpointId := draft.pjsipEndpointId);
    ChecksIff(s, id, t);
  }

  /** A create answers with this trunk iff it is the one asked for, admissible, and both writes are done; it is
      then stored as it was asked for, and otherwise what is stored, if anything, is asked for as well. */
  lemma CreateStoresIff(s: Store, tenantId: string, id: Uuid, dto: CreateDto, links: Links, t: Trunk)
    requires AllWellFormed(s.trunks) && Plausible(s, Create(id, dto)) && NewlyAsked(tenantId, id, dto, t)
    ensures var (s', result) := CreateTrunk(s, Some(tenantId), id, dto, links);
            && (result == Ok(t) <==> Admissible(s, id, t) && links == Links(Done, Done) && PasswordFits(t))
            && (s'.trunks == s.trunks
                || (id in s'.trunks && NewlyAsked(tenantId, id, dto, s'.trunks[id])
                    && s'.trunks == s.trunks[id := s'.trunks[id]]))
            && (result.Ok? ==> s'.trunks == s.trunks[id := result.value])
  {
    var accepted := AcceptCreate(s, Some(tenantId), id, dto);
    CreateAcceptsIff(s, tenantId, id, dto, t);
    if accepted.Ok? {
      var saved := CreateSavesAsked(s, Some(tenantId), id, dto);
      SaveAnswers(s, id, saved, None, links);
    }
  }

  /** The same of an update, which the owner of the trunk has to ask for. */
  lemma UpdateStoresIff(s: Store, tenantId: Option<string>, id: Uuid, dto: UpdateDto, links: Links, t: Trunk)
    requires AllWellFormed(s.trunks) && Plausible(s, Update(id, dto))
    requires id in s.trunks && AskedBy(s.trunks[id], dto, t)
    ensures var (s', result) := UpdateTrunk(s, tenantId, id, dto, links);
            && (result == Ok(t)
                <==> tenantId == Some(t.tenantId) && Admissible(s, id, t) && links == Links(Done, Done)
                     && PasswordFits(t))
            && (s'.trunks == s.trunks
                || (id in s'.trunks && AskedBy(s.trunks[id], dto, s'.trunks[id])
                    && s'.trunks == s.trunks[id := s'.trunks[id]]))
            && (result.Ok? ==> s'.trunks == s.trunks[id := result.value])
  {
    var accepted := AcceptUpdate(s, tenantId, id, dto);
    assert WellFormed(id, s.trunks[id]);
    UpdateAcceptsIff(s, tenantId, id, dto, t);
    if accepted.Ok? {
      var saved := UpdateSavesAsked(s, tenantId, id, dto);
      SaveAnswers(s, id, saved, PreviousId(s.trunks, id, saved.pjsipEndpointId), links);
    }
  }

  // ---------- Rows ----------

  /** The addresses Asterisk takes calls from on an endpoint. */
  function AddressesOf(table: map<string, IdentifyRow>, endpointId: string): set<string> {
    set k | k in table && table[k].endpoint == endpointId :: table[k].match_
  }

  /** The rows Asterisk reads for a trunk: one contact; a login in credentials mode only; and, only while the trunk
      is enabled, exactly its matches as addresses. */
  predicate RowsSay(tables: Tables, t: Trunk) {
    EndpointSays(tables, t) && LoginSays(tables.auths, t) && AddressesSay(tables.identifies, t)
  }

  predicate EndpointSays(tables: Tables, t: Trunk) {
    var id := t.pjsipEndpointId;
    && id in tables.endpoints && id in tables.aors && tables.aors[id] == AorRow(1)
    && tables.endpoints[id].aors == id && tables.endpoints[id].context == "from-trunk"
    && tables.endpoints[id].auth == if t.authMode == Credentials then Some(TrunkAuthId(t.id)) else None
  }

  predicate LoginSays(auths: map<string, AuthRow>, t: Trunk) {
    if t.authMode == Credentials then
      TrunkAuthId(t.id) in auths && auths[TrunkAuthId(t.id)] == AuthRow(t.username, t.password)
    else TrunkAuthId(t.id) !in auths
  }

  predicate AddressesSay(identifies: map<string, IdentifyRow>, t: Trunk) {
    AddressesOf(identifies, t.pjsipEndpointId) == if t.enabled then set m <- t.identifyIps else {}
  }

  /** Whenever the tables are exact, every trunk has just the rows its fields ask for. */
  lemma ExactRowsSay(s: Store, foreign: Tables, u: Uuid)
    requires Consistent(s, foreign) && ForeignRows(foreign) && u in s.trunks
    ensures RowsSay(s.tables, s.trunks[u])
  {
    assert WellFormed(u, s.trunks[u]);
    EndpointRows(s.trunks, s.tables, foreign, u);
    AuthIdFree(s.trunks, foreign, u);
    LoginRow(s.trunks, s.tables.auths, foreign.auths, u);
    OwnEndpointFree(s, foreign, u);
    AddressRows(s.trunks, s.tables.identifies, u);
  }

  lemma EndpointRows(trunks: map<Uuid, Trunk>, tables: Tables, foreign: Tables, u: Uuid)
    requires Holds(tables.endpoints, Parts(trunks, EndpointPart), foreign.endpoints)
    requires Holds(tables.aors, Parts(trunks, AorPart), foreign.aors) && u in trunks
    ensures EndpointSays(tables, trunks[u])
  {
    var id := trunks[u].pjsipEndpointId;
    assert id in Parts(trunks, EndpointPart)[u] && id in Parts(trunks, AorPart)[u];
  }

  lemma LoginRow(trunks: map<Uuid, Trunk>, auths: map<string, AuthRow>, foreign: map<string, AuthRow>, u: Uuid)
    requires IsImage(auths, Parts(trunks, AuthPart), foreign) && u in trunks && trunks[u].id == u
    requires {TrunkAuthId(u)} !! foreign.Keys
    requires var parts := Parts(trunks, AuthPart);
             forall v :: v in parts && v != u ==> {TrunkAuthId(u)} !! parts[v].Keys
    ensures LoginSays(auths, trunks[u])
  {
    var parts := Parts(trunks, AuthPart);
    if trunks[u].authMode == Credentials {
      assert TrunkAuthId(u) in parts[u];
    } else {
      forall v | v in parts ensures TrunkAuthId(u) !in parts[v] {
        if v != u { assert {TrunkAuthId(u)} !! parts[v].Keys; }
      }
    }
  }

  lemma AddressRows(trunks: map<Uuid, Trunk>, table: map<string, IdentifyRow>, u: Uuid)
    requires IsImage(table, Parts(trunks, IdentifyPart), map[]) && u in trunks
    requires IsUuid(u) && trunks[u].id == u && |trunks[u].identifyIps| <= MAX_IDENTIFIES
    requires forall v :: v in trunks && v != u ==> trunks[v].pjsipEndpointId != trunks[u].pjsipEndpointId
    ensures AddressesSay(table, trunks[u])
  {
    var t := trunks[u];
    forall k | k in table && table[k].endpoint == t.pjsipEndpointId
      ensures t.enabled && table[k].match_ in t.identifyIps
    {
      RowIsMatch(trunks, table, u, k);
    }
    if t.enabled { OwnMatchesHaveRows(trunks, table, u); }
  }

  lemma RowIsMatch(trunks: map<Uuid, Trunk>, table: map<string, IdentifyRow>, u: Uuid, k: string)
    requires IsImage(table, Parts(trunks, IdentifyPart), map[]) && u in trunks
    requires IsUuid(u) && trunks[u].id == u && |trunks[u].identifyIps| <= MAX_IDENTIFIES
    requires forall v :: v in trunks && v != u ==> trunks[v].pjsipEndpointId != trunks[u].pjsipEndpointId
    requires k in table && table[k].endpoint == trunks[u].pjsipEndpointId
    ensures trunks[u].enabled && table[k].match_ in trunks[u].identifyIps
  {
    var t, parts := trunks[u], Parts(trunks, IdentifyPart);
    var v :| v in parts && k in parts[v];
    IdentifyRowOwner(trunks, table, v, k);
    IdentifyRowsExact(u, t.pjsipEndpointId, t.identifyIps);
    var ids := IdentifyIds(u, |t.identifyIps|);
    var i :| 0 <= i < |ids| && ids[i] == k;
    assert parts[u][k] == IdentifyRow(t.pjsipEndpointId, t.identifyIps[i]);
  }

  lemma OwnMatchesHaveRows(trunks: map<Uuid, Trunk>, table: map<string, IdentifyRow>, u: Uuid)
    requires Holds(table, Parts(trunks, IdentifyPart), map[]) && u in trunks && trunks[u].enabled
    requires IsUuid(u) && trunks[u].id == u && |trunks[u].identifyIps| <= MAX_IDENTIFIES
    ensures forall m :: m in trunks[u].identifyIps ==> m in AddressesOf(table, trunks[u].pjsipEndpointId)
  {
    var parts := Parts(trunks, IdentifyPart);
    MatchesHaveRows(table, parts[u], u, trunks[u].pjsipEndpointId, trunks[u].identifyIps);
  }

  lemma MatchesHaveRows(table: map<string, IdentifyRow>, rows: map<string, IdentifyRow>, u: Uuid, endpointId: string,
                        matches: seq<string>)
    requires IsUuid(u) && |matches| <= MAX_IDENTIFIES && rows == IdentifyRows(u, endpointId, matches)
    requires forall k :: k in rows ==> k in table && table[k] == rows[k]
    ensures forall m :: m in matches ==> m in AddressesOf(table, endpointId)
  {
    IdentifyRowsExact(u, endpointId, matches);
    forall m | m in matches ensures m in AddressesOf(table, endpointId) {
      var i :| 0 <= i < |matches| && matches[i] == m;
      var k := IdentifyIds(u, |matches|)[i];
      assert k in rows && table[k] == IdentifyRow(endpointId, m);
    }
  }

  /** What is stored is what its rows say, and the tables are exact. */
  ghost predicate StoredAndProvisioned(s: Store, s': Store, foreign: Tables, t: Trunk) {
    s'.trunks == s.trunks[t.id := t] && Consistent(s', foreign) && RowsSay(s'.tables, t)
  }

  lemma SaveIsProvisioned(s: Store, foreign: Tables, u: Uuid, t: Trunk, previous: Option<string>, links: Links)
    returns (s': Store)
    requires Consistent(s, foreign) && ForeignRows(foreign) && WellFormed(u, t)
    requires Free(s, foreign, u, t.pjsipEndpointId) && previous == PreviousId(s.trunks, u, t.pjsipEndpointId)
    requires SaveAndProvision(s, t, previous, links).1.Ok?
    ensures SaveAndProvision(s, t, previous, links) == (s', Ok(t)) && StoredAndProvisioned(s, s', foreign, t)
  {
    SaveAnswers(s, u, t, previous, links);
    SaveIff(s, foreign, u, t, links);
    s' := SaveAndProvision(s, t, previous, links).0;
    ExactRowsSay(s', foreign, u);
  }

  /** Main result: on exact tables, an update that succeeds has stored what was asked for and written the rows that
      say so, and has left the tables exact; so a trunk disabled is identified by no address, and one enabled
      by all of its matches. */
  lemma UpdateDoesWhatIsAsked(s: Store, foreign: Tables, tenantId: Option<string>, id: Uuid, dto: UpdateDto,
                              links: Links) returns (s': Store, t: Trunk)
    requires Consistent(s, foreign) && ForeignRows(foreign) && Plausible(s, Update(id, dto))
    requires UpdateTrunk(s, tenantId, id, dto, links).1.Ok?
    ensures UpdateTrunk(s, tenantId, id, dto, links) == (s', Ok(t)) && StoredAndProvisioned(s, s', foreign, t)
    ensures id in s.trunks && tenantId == Some(s.trunks[id].tenantId) && AskedBy(s.trunks[id], dto, t)
  {
    t := UpdateSavesAsked(s, tenantId, id, dto);
    AvailableIsFree(s, foreign, t.pjsipEndpointId, id);
    s' := SaveIsProvisioned(s, foreign, id, t, PreviousId(s.trunks, id, t.pjsipEndpointId), links);
  }

  lemma UpdateSavesAsked(s: Store, tenantId: Option<string>, id: Uuid, dto: UpdateDto) returns (t: Trunk)
    requires AllWellFormed(s.trunks) && Plausible(s, Update(id, dto)) && AcceptUpdate(s, tenantId, id, dto).Ok?
    ensures AcceptUpdate(s, tenantId, id, dto) == Ok(t) && WellFormed(id, t)
    ensures id in s.trunks && tenantId == Some(s.trunks[id].tenantId) && AskedBy(s.trunks[id], dto, t)
    ensures AssertAvailable(s, t.pjsipEndpointId, Some(id)) == None
  {
    t := AcceptUpdate(s, tenantId, id, dto).value;
    UpdateAccepts(s, tenantId, id, dto);
    EditedAsAsked(s.trunks[id], dto);
  }

  /** And so does a create. */
  lemma CreateDoesWhatIsAsked(s: Store, foreign: Tables, tenantId: Option<string>, id: Uuid, dto: CreateDto,
                              links: Links) returns (s': Store, t: Trunk)
    requires Consistent(s, foreign) && ForeignRows(foreign) && Plausible(s, Create(id, dto))
    requires CreateTrunk(s, tenantId, id, dto, links).1.Ok?
    ensures CreateTrunk(s, tenantId, id, dto, links) == (s', Ok(t)) && StoredAndProvisioned(s, s', foreign, t)
    ensures tenantId.Some? && NewlyAsked(tenantId.value, id, dto, t)
  {
    t := CreateSavesAsked(s, tenantId, id, dto);
    AvailableIsFree(s, foreign, t.pjsipEndpointId, id);
    s' := SaveIsProvisioned(s, foreign, id, t, None, links);
  }

  lemma CreateSavesAsked(s: Store, tenantId: Option<string>, id: Uuid, dto: CreateDto) returns (t: Trunk)
    requires Plausible(s, Create(id, dto)) && AcceptCreate(s, tenantId, id, dto).Ok?
    ensures AcceptCreate(s, tenantId, id, dto) == Ok(t) && WellFormed(id, t)
    ensures tenantId.Some? && NewlyAsked(tenantId.value, id, dto, t)
    ensures AssertAvailable(s, t.pjsipEndpointId, None) == None
  {
    t := AcceptCreate(s, tenantId, id, dto).value;
    CreateAccepts(s, tenantId, id, dto);
    assert t == NewTrunk(id, tenantId.value, dto).(pjsipEndpointId := t.pjsipEndpointId);
  }

  /** A trunk that does not exist, or is another tenant's, cannot be updated, deleted or synced: nothing changes. */
  lemma OthersAreRefused(s: Store, r: Request)
    requires !r.op.Create? && !(r.op.id in s.trunks && r.tenantId == Some(s.trunks[r.op.id].tenantId))
    ensures Apply(s, r) == (s, Err(if r.tenantId == None then Forbidden else NotFound))
  {
  }

  predicate NoRows(tables: Tables, u: Uuid, endpointId: string) {
    && endpointId !in tables.endpoints && endpointId !in tables.aors && TrunkAuthId(u) !in tables.auths
    && AddressesOf(tables.identifies, endpointId) == {}
  }

  /** The owner's delete succeeds iff both writes are done, and then the trunk and its rows are gone. */
  lemma DeleteDoesWhatIsAsked(s: Store, foreign: Tables, tenantId: string, id: Uuid, links: Links)
    requires Consistent(s, foreign) && ForeignRows(foreign)
    requires id in s.trunks && s.trunks[id].tenantId == tenantId
    ensures var (s', result) := DeleteTrunk(s, Some(tenantId), id, links);
            && (result.Ok? <==> links == Links(Done, Done))
            && (result.Ok? ==>
                  && s'.trunks == s.trunks - {id} && NoRows(s'.tables, id, s.trunks[id].pjsipEndpointId)
                  && Consistent(s', foreign))
  {
    DeleteImageIff(s, foreign, Some(tenantId), id, links);
    DeleteGone(s, tenantId, id, links);
  }

  lemma DeleteGone(s: Store, tenantId: string, id: Uuid, links: Links)
    requires id in s.trunks && s.trunks[id].tenantId == tenantId && s.trunks[id].id == id
    ensures var (s', result) := DeleteTrunk(s, Some(tenantId), id, links);
            && (result.Ok? <==> links == Links(Done, Done))
            && (result.Ok? ==> s'.trunks == s.trunks - {id} && NoRows(s'.tables, id, s.trunks[id].pjsipEndpointId))
  {
  }
}
