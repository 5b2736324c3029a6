/** SIP trunks and their rows in Asterisk's four realtime tables: what each operation does. */
module TrunkProvisioning {
  import opened Prelude
  import opened Trimming
  import opened TrunkIds

  type Uuid = string

  datatype AuthMode = Ip | Credentials

  /** A row of the trunk table with its identify matches. */
  datatype Trunk = Trunk(id: Uuid, tenantId: string, name: string, authMode: AuthMode, username: Option<string>,
                         password: Option<string>, enabled: bool, pjsipEndpointId: string, identifyIps: seq<string>)

  /** Realtime rows; columns every trunk row sets to the same constant are not shown. */
  datatype EndpointRow = EndpointRow(aors: string, auth: Option<string>, context: string)
  datatype AorRow = AorRow(maxContacts: nat)
  datatype AuthRow = AuthRow(username: Option<string>, password: Option<string>)
  datatype IdentifyRow = IdentifyRow(endpoint: string, match_: string)

  datatype Tables = Tables(endpoints: map<string, EndpointRow>, aors: map<string, AorRow>,
                           auths: map<string, AuthRow>, identifies: map<string, IdentifyRow>)

  datatype Store = Store(trunks: map<Uuid, Trunk>, tables: Tables)

  datatype Error = Forbidden | NotFound | IdentifyIpsRequired | CredentialsRequired | UsernameTooLong
                 | EndpointTaken | UsernameTaken | AlreadyProvisioned | DuplicateMatch
                 | TrunkWriteFailed | ProvisioningFailed

  /** A write is done and confirmed, fails, or is done without its confirmation getting back. */
  datatype Write = Done | Failed | Unheard

  /** What becomes of the writes of an operation: the trunk table's, and the realtime transaction's. They are
      separate transactions; the second is sent only once the first is confirmed. */
  datatype Links = Links(trunks: Write, realtime: Write) {
    predicate Saves() { trunks != Failed }
    predicate Provisions() { trunks == Done && realtime != Failed }
    predicate Deletes() { realtime == Done && trunks != Failed }
  }

  datatype CreateDto = CreateDto(name: string, authMode: AuthMode, username: Option<string>, password: Option<string>,
                                 enabled: Option<bool>, identifyIps: seq<string>)

  /** Absent fields are None; username and password may also be set to null. */
  datatype UpdateDto = UpdateDto(name: Option<string>, authMode: Option<AuthMode>,
                                 username: Option<Option<string>>, password: Option<Option<string>>,
                                 enabled: Option<bool>, identifyIps: Option<seq<string>>)

  /** What the provisioning service is told about a trunk. */
  datatype ProvisionInput = ProvisionInput(endpointId: string, authMode: AuthMode, username: Option<string>,
                                           password: Option<string>, identifyMatches: seq<string>, enabled: bool,
                                           previousEndpointId: Option<string>)

  // ---------- The realtime repository ----------

  function TrimmedOr(s: Option<string>, default: string): string {
    if s.Some? && Trim(s.value) != "" then Trim(s.value) else default
  }

  function TrimOption(s: Option<string>): Option<string> {
    if s.Some? then Some(Trim(s.value)) else None
  }

  function ProvisionedEndpoint(input: ProvisionInput): string {
    if input.authMode == Credentials then TrimmedOr(input.username, input.endpointId) else input.endpointId
  }

  /** The endpoint id a trunk gives up, if any. */
  function Abandoned(input: ProvisionInput): set<string> {
    var previous := TrimmedOr(input.previousEndpointId, "");
    if previous != "" && previous != ProvisionedEndpoint(input) then {previous} else {}
  }

  /** One identify row per match, under the ids derived for indices 0, 1, ... */
  function IdentifyRows(uuid: Uuid, endpointId: string, matches: seq<string>): map<string, IdentifyRow> {
    RowsUnder(IdentifyIds(uuid, |matches|), endpointId, matches)
  }

  function IdentifyIds(uuid: Uuid, n: nat): (r: seq<string>)
    ensures |r| == n && forall i :: 0 <= i < n ==> r[i] == TrunkIdentifyId(uuid, i)
  {
    seq(n, i requires 0 <= i => TrunkIdentifyId(uuid, i))
  }

  /** Row i is saved under key i; a repeated key would overwrite the earlier row. */
  function RowsUnder(keys: seq<string>, endpointId: string, matches: seq<string>): map<string, IdentifyRow>
    requires |keys| == |matches|
  {
    if matches == [] then map[]
    else
      var n := |matches| - 1;
      RowsUnder(keys[..n], endpointId, matches[..n])[keys[n] := IdentifyRow(endpointId, matches[n])]
  }

  function WithoutEndpoints(identifies: map<string, IdentifyRow>, endpoints: set<string>): map<string, IdentifyRow> {
    map k | k in identifies && identifies[k].endpoint !in endpoints :: identifies[k]
  }

  function Upsert(t: Tables, input: ProvisionInput, uuid: Uuid): Tables {
    var endpointId := ProvisionedEndpoint(input);
    var authId := TrunkAuthId(uuid);
    Tables(
      (t.endpoints - Abandoned(input))[endpointId :=
        EndpointRow(endpointId, if input.authMode == Credentials then Some(authId) else None, "from-trunk")],
      (t.aors - Abandoned(input))[endpointId := AorRow(1)],
      if input.authMode == Credentials then t.auths[authId := AuthRow(TrimOption(input.username), input.password)]
      else t.auths - {authId},
      WithoutEndpoints(t.identifies, Abandoned(input) + {endpointId})
      + if input.enabled then IdentifyRows(uuid, endpointId, input.identifyMatches) else map[])
  }

  function Remove(t: Tables, endpointId: string, uuid: Uuid): Tables {
    Tables(t.endpoints - {endpointId}, t.aors - {endpointId}, t.auths - {TrunkAuthId(uuid)},
           WithoutEndpoints(t.identifies, {endpointId}))
  }

  // ---------- Column widths ----------

  const AUTH_PASSWORD_WIDTH := 80
  const MATCH_WIDTH := 80
  const AORS_WIDTH := 200

  predicate Within(s: Option<string>, width: nat) {
    s.Some? ==> |s.value| <= width
  }

  predicate AuthFits(row: AuthRow) {
    Within(row.username, PJSIP_ID_MAX_LENGTH) && Within(row.password, AUTH_PASSWORD_WIDTH)
  }

  predicate MatchesFit(matches: seq<string>) {
    matches == [] || (|matches[|matches| - 1]| <= MATCH_WIDTH && MatchesFit(matches[..|matches| - 1]))
  }

  /** The columns take every row provisioning writes; the derived ids are cut to fit. */
  predicate RowsFit(input: ProvisionInput) {
    && |ProvisionedEndpoint(input)| <= PJSIP_ID_MAX_LENGTH
    && (input.authMode == Credentials ==> AuthFits(AuthRow(TrimOption(input.username), input.password)))
    && (input.enabled ==> MatchesFit(input.identifyMatches))
  }

  /** What the four schemas guarantee of every row there is. */
  ghost predicate ColumnsFit(t: Tables) {
    EndpointsFit(t.endpoints) && AorsFit(t.aors) && AuthsFit(t.auths) && IdentifiesFit(t.identifies)
  }

  ghost predicate EndpointsFit(table: map<string, EndpointRow>) {
    forall k :: k in table ==> |k| <= PJSIP_ID_MAX_LENGTH && |table[k].aors| <= AORS_WIDTH
                               && Within(table[k].auth, PJSIP_ID_MAX_LENGTH)
  }

  ghost predicate AorsFit(table: map<string, AorRow>) {
    forall k :: k in table ==> |k| <= PJSIP_ID_MAX_LENGTH
  }

  ghost predicate AuthsFit(table: map<string, AuthRow>) {
    forall k :: k in table ==> |k| <= PJSIP_ID_MAX_LENGTH && AuthFits(table[k])
  }

  ghost predicate IdentifiesFit(table: map<string, IdentifyRow>) {
    forall k :: k in table ==> |k| <= PJSIP_ID_MAX_LENGTH && |table[k].endpoint| <= PJSIP_ID_MAX_LENGTH
                               && |table[k].match_| <= MATCH_WIDTH
  }

  // ---------- The trunk service ----------

  function AssertAuthFields(authMode: AuthMode, username: Option<string>, password: Option<string>,
                            identifyIps: seq<string>): Option<Error> {
    if authMode == Ip then
      if identifyIps == [] then Some(IdentifyIpsRequired) else None
    else if TrimmedOr(username, "") == "" || TrimmedOr(password, "") == "" then Some(CredentialsRequired)
    else if |TrimmedOr(username, "")| > PJSIP_ID_MAX_LENGTH then Some(UsernameTooLong)
    else None
  }

  function ResolveEndpointId(authMode: AuthMode, uuid: Uuid, username: Option<string>): Result<string, Error> {
    if authMode == Credentials then
      var trimmed := TrimmedOr(username, "");
      if trimmed == "" then Err(CredentialsRequired)
      else if |trimmed| > PJSIP_ID_MAX_LENGTH then Err(UsernameTooLong)
      else Ok(trimmed)
    else Ok(TrunkEndpointId(uuid))
  }

  /** Other trunks own neither the endpoint id nor a username like it, and Asterisk has no such
      endpoint unless the trunk itself already owns it. */
  function AssertAvailable(s: Store, endpointId: string, exclude: Option<Uuid>): Option<Error> {
    if exists u :: u in s.trunks && Some(u) != exclude && s.trunks[u].pjsipEndpointId == endpointId then
      Some(EndpointTaken)
    else if exists u :: u in s.trunks && Some(u) != exclude && s.trunks[u].username == Some(endpointId) then
      Some(UsernameTaken)
    else if endpointId !in s.tables.endpoints then None
    else if exclude.Some? && exclude.value in s.trunks && s.trunks[exclude.value].pjsipEndpointId == endpointId then
      None
    else Some(AlreadyProvisioned)
  }

  /** The unique constraint on (trunk, match). */
  predicate MatchesUnique(matches: seq<string>) {
    forall i, j :: 0 <= i < j < |matches| ==> matches[i] != matches[j]
  }

  function InputFor(trunk: Trunk, previous: Option<string>): ProvisionInput {
    ProvisionInput(trunk.pjsipEndpointId, trunk.authMode, trunk.username, trunk.password, trunk.identifyIps,
                   trunk.enabled, previous)
  }

  /** The realtime transaction commits as a whole or not at all; unless that is confirmed the operation fails. */
  function Provision(s: Store, trunk: Trunk, previous: Option<string>, links: Links): (Store, Result<Trunk, Error>) {
    var input := InputFor(trunk, previous);
    if links.realtime == Failed || !RowsFit(input) then (s, Err(ProvisioningFailed))
    else (s.(tables := Upsert(s.tables, input, trunk.id)),
          if links.realtime == Done then Ok(trunk) else Err(ProvisioningFailed))
  }

  /** The trunk is saved first; when provisioning then fails it stays saved. */
  function SaveAndProvision(s: Store, trunk: Trunk, previous: Option<string>, links: Links):
      (Store, Result<Trunk, Error>) {
    if links.trunks == Failed then (s, Err(TrunkWriteFailed))
    else
      var saved := s.(trunks := s.trunks[trunk.id := trunk]);
      if links.trunks == Unheard then (saved, Err(TrunkWriteFailed)) else Provision(saved, trunk, previous, links)
  }

  /** The endpoint id before, when it changes. */
  function PreviousId(trunks: map<Uuid, Trunk>, u: Uuid, endpointId: string): Option<string> {
    if u in trunks && trunks[u].pjsipEndpointId != endpointId then Some(trunks[u].pjsipEndpointId) else None
  }

  function FindForTenant(s: Store, tenantId: Option<string>, id: Uuid): Result<Trunk, Error> {
    if tenantId == None then Err(Forbidden)
    else if id !in s.trunks || s.trunks[id].tenantId != tenantId.value then Err(NotFound)
    else Ok(s.trunks[id])
  }

  function NewTrunk(id: Uuid, tenantId: string, dto: CreateDto): Trunk {
    Trunk(id, tenantId, dto.name, dto.authMode,
          if dto.authMode == Credentials then TrimOption(dto.username) else None,
          if dto.authMode == Credentials then dto.password else None,
          if dto.enabled.Some? then dto.enabled.value else true, "", dto.identifyIps)
  }

  /** The trunk a create saves, or why it is refused. */
  function AcceptCreate(s: Store, tenantId: Option<string>, id: Uuid, dto: CreateDto): Result<Trunk, Error> {
    if tenantId == None then Err(Forbidden)
    else
      var invalid := AssertAuthFields(dto.authMode, dto.username, dto.password, dto.identifyIps);
      if invalid.Some? then Err(invalid.value)
      else
        var draft := NewTrunk(id, tenantId.value, dto);
        var endpointId := ResolveEndpointId(draft.authMode, id, draft.username);
        if endpointId.Err? then Err(endpointId.error)
        else
          var trunk := draft.(pjsipEndpointId := endpointId.value);
          var taken := AssertAvailable(s, trunk.pjsipEndpointId, None);
          if taken.Some? then Err(taken.value)
          else if !MatchesUnique(trunk.identifyIps) then Err(DuplicateMatch)
          else Ok(trunk)
  }

  function CreateTrunk(s: Store, tenantId: Option<string>, id: Uuid, dto: CreateDto, links: Links):
      (Store, Result<Trunk, Error>) {
    var accepted := AcceptCreate(s, tenantId, id, dto);
    if accepted.Err? then (s, accepted) else SaveAndProvision(s, accepted.value, None, links)
  }

  function UpdatedTrunk(trunk: Trunk, dto: UpdateDto): Trunk {
    var mode := if dto.authMode.Some? then dto.authMode.value else trunk.authMode;
    var username := if dto.username.Some? then TrimOption(dto.username.value) else trunk.username;
    var password := if dto.password.Some? then dto.password.value else trunk.password;
    trunk.(name := if dto.name.Some? then dto.name.value else trunk.name,
           authMode := mode,
           enabled := if dto.enabled.Some? then dto.enabled.value else trunk.enabled,
           username := if mode == Ip then None else TrimOption(username),
           password := if mode == Ip then None else password,
           identifyIps := if dto.identifyIps.Some? then dto.identifyIps.value else trunk.identifyIps)
  }

  /** The trunk an update saves, or why it is refused. */
  function AcceptUpdate(s: Store, tenantId: Option<string>, id: Uuid, dto: UpdateDto): Result<Trunk, Error> {
    var found := FindForTenant(s, tenantId, id);
    if found.Err? then found
    else
      var draft := UpdatedTrunk(found.value, dto);
      var invalid := AssertAuthFields(draft.authMode, draft.username, draft.password, draft.identifyIps);
      if invalid.Some? then Err(invalid.value)
      else
        var endpointId := ResolveEndpointId(draft.authMode, draft.id, draft.username);
        if endpointId.Err? then Err(endpointId.error)
        else
          var trunk := draft.(pjsipEndpointId := endpointId.value);
          var taken := AssertAvailable(s, trunk.pjsipEndpointId, Some(trunk.id));
          if taken.Some? then Err(taken.value)
          else if !MatchesUnique(trunk.identifyIps) then Err(DuplicateMatch)
          else Ok(trunk)
  }

  function UpdateTrunk(s: Store, tenantId: Option<string>, id: Uuid, dto: UpdateDto, links: Links):
      (Store, Result<Trunk, Error>) {
    var accepted := AcceptUpdate(s, tenantId, id, dto);
    if accepted.Err? then (s, accepted)
    else SaveAndProvision(s, accepted.value, PreviousId(s.trunks, id, accepted.value.pjsipEndpointId), links)
  }

  /** The rows go first; when the trunk is then not deleted, it stays without rows. */
  function DeleteTrunk(s: Store, tenantId: Option<string>, id: Uuid, links: Links): (Store, Result<Trunk, Error>) {
    var found := FindForTenant(s, tenantId, id);
    if found.Err? then (s, found)
    else if links.realtime == Failed then (s, Err(ProvisioningFailed))
    else
      var removed := s.(tables := Remove(s.tables, found.value.pjsipEndpointId, found.value.id));
      if links.realtime == Unheard then (removed, Err(ProvisioningFailed))
      else if links.trunks == Failed then (removed, Err(TrunkWriteFailed))
      else (removed.(trunks := s.trunks - {found.value.id}),
            if links.trunks == Done then found else Err(TrunkWriteFailed))
  }

  /** The trunk a sync provisions, or why it is refused. */
  function AcceptSync(s: Store, tenantId: Option<string>, id: Uuid): Result<Trunk, Error> {
    var found := FindForTenant(s, tenantId, id);
    if found.Err? then found
    else
      var endpointId := ResolveEndpointId(found.value.authMode, found.value.id, found.value.username);
      if endpointId.Err? then Err(endpointId.error)
      else
        var trunk := found.value.(pjsipEndpointId := endpointId.value);
        var taken := AssertAvailable(s, trunk.pjsipEndpointId, Some(trunk.id));
        if trunk.pjsipEndpointId != found.value.pjsipEndpointId && taken.Some? then Err(taken.value)
        else Ok(trunk)
  }

  /** Only a trunk whose endpoint id changes is saved. */
  function SyncTrunk(s: Store, tenantId: Option<string>, id: Uuid, links: Links): (Store, Result<Trunk, Error>) {
    var accepted := AcceptSync(s, tenantId, id);
    if accepted.Err? then (s, accepted)
    else
      var previous := PreviousId(s.trunks, id, accepted.value.pjsipEndpointId);
      if previous == None then Provision(s, accepted.value, None, links)
      else SaveAndProvision(s, accepted.value, previous, links)
  }

  datatype Op =
    | Create(id: Uuid, create: CreateDto)
    | Update(id: Uuid, update: UpdateDto)
    | Delete(id: Uuid)
    | Sync(id: Uuid)

  /** An operation by some tenant, with the fate of its writes. */
  datatype Request = Request(tenantId: Option<string>, op: Op, links: Links)

  function Apply(s: Store, r: Request): (Store, Result<Trunk, Error>) {
    match r.op
    case Create(id, dto) => CreateTrunk(s, r.tenantId, id, dto, r.links)
    case Update(id, dto) => UpdateTrunk(s, r.tenantId, id, dto, r.links)
    case Delete(id) => DeleteTrunk(s, r.tenantId, id, r.links)
    case Sync(id) => SyncTrunk(s, r.tenantId, id, r.links)
  }

  /** Requests by any tenants, in order. */
  function ApplyAll(s: Store, requests: seq<Request>): Store
    decreases |requests|
  {
    if requests == [] then s
    else ApplyAll(Apply(s, requests[0]).0, requests[1..])
  }
}
