/** The trunk service and the realtime repository it provisions through: tables changed in place. */
module TrunkService {
  import opened Prelude
  import opened Trimming
  import opened TrunkIds
  import P = TrunkProvisioning
  import opened TrunkProvisioning
  import opened TrunkRequests

  /** The identify table after the first `index` rows are saved. */
  ghost function Saved(table: map<string, IdentifyRow>, ids: seq<string>, endpointId: string, matches: seq<string>,
                       index: nat): map<string, IdentifyRow>
    requires index <= |matches| == |ids|
  {
    table + RowsUnder(ids[..index], endpointId, matches[..index])
  }

  lemma SavedNext(table: map<string, IdentifyRow>, ids: seq<string>, endpointId: string, matches: seq<string>,
                  index: nat)
    requires index < |matches| == |ids|
    ensures Saved(table, ids, endpointId, matches, index + 1)
            == Saved(table, ids, endpointId, matches, index)[ids[index] := IdentifyRow(endpointId, matches[index])]
  {
    assert ids[..index + 1][..index] == ids[..index] && matches[..index + 1][..index] == matches[..index];
  }

  lemma ClearTwice(table: map<string, IdentifyRow>, a: set<string>, b: set<string>)
    ensures WithoutEndpoints(WithoutEndpoints(table, a), b) == WithoutEndpoints(table, a + b)
    ensures WithoutEndpoints(table, {}) == table
  {
  }

  lemma AddNothing(table: map<string, IdentifyRow>)
    ensures table + map[] == table
  {
  }

  class SipTrunkService {
    var trunks: map<Uuid, Trunk>
    var endpoints: map<string, EndpointRow>
    var aors: map<string, AorRow>
    var auths: map<string, AuthRow>
    var identifies: map<string, IdentifyRow>

    ghost function Rows(): Tables
      reads this
    {
      Tables(endpoints, aors, auths, identifies)
    }

    ghost function State(): Store
      reads this
    {
      Store(trunks, Rows())
    }

    constructor (foreign: Tables)
      ensures State() == Store(map[], foreign)
    {
      trunks := map[];
      endpoints, aors, auths, identifies := foreign.endpoints, foreign.aors, foreign.auths, foreign.identifies;
    }

    // ---------- The realtime repository: one transaction each ----------

    /** Rolled back as a whole when the connection or a column refuses a row. */
    method UpsertTrunk(input: ProvisionInput, uuid: Uuid, write: Write) returns (confirmed: bool)
      modifies this`endpoints, this`aors, this`auths, this`identifies
      ensures confirmed == (write == Done && RowsFit(input))
      ensures Rows() == if write == Failed || !RowsFit(input) then old(Rows()) else Upsert(old(Rows()), input, uuid)
    {
      var before := (endpoints, aors, auths, identifies);
      WriteRows(input, uuid);
      if write == Failed || !RowsFit(input) {
        endpoints, aors, auths, identifies := before.0, before.1, before.2, before.3;
        return false;
      }
      return write == Done;
    }

    method WriteRows(input: ProvisionInput, uuid: Uuid)
      modifies this`endpoints, this`aors, this`auths, this`identifies
      ensures Rows() == Upsert(old(Rows()), input, uuid)
    {
      var endpointId := ProvisionedEndpoint(input);
      var authId := TrunkAuthId(uuid);
      DeletePrevious(input, endpointId);
      ClearTwice(old(identifies), Abandoned(input), {endpointId});
      identifies := WithoutEndpoints(identifies, {endpointId});
      if input.authMode == Credentials {
        auths := auths[authId := AuthRow(TrimOption(input.username), input.password)];
      } else {
        auths := auths - {authId};
      }
      aors := aors[endpointId := AorRow(1)];
      var auth := if input.authMode == Credentials then Some(authId) else None;
      endpoints := endpoints[endpointId := EndpointRow(endpointId, auth, "from-trunk")];
      if input.enabled {
        SaveIdentifies(uuid, endpointId, input.identifyMatches);
      } else {
        AddNothing(identifies);
      }
    }

    /** Rows under the endpoint id the trunk gives up. */
    method DeletePrevious(input: ProvisionInput, endpointId: string)
      requires endpointId == ProvisionedEndpoint(input)
      modifies this`endpoints, this`aors, this`identifies
      ensures endpoints == old(endpoints) - Abandoned(input) && aors == old(aors) - Abandoned(input)
      ensures identifies == WithoutEndpoints(old(identifies), Abandoned(input))
    {
      var previous := TrimmedOr(input.previousEndpointId, "");
      if previous != "" && previous != endpointId {
        identifies := WithoutEndpoints(identifies, {previous});
        endpoints := endpoints - {previous};
        aors := aors - {previous};
      } else {
        ClearTwice(identifies, {}, {});
      }
    }

    method SaveIdentifies(uuid: Uuid, endpointId: string, matches: seq<string>)
      modifies this`identifies
      ensures identifies == old(identifies) + IdentifyRows(uuid, endpointId, matches)
    {
      var index := 0;
      ghost var ids := IdentifyIds(uuid, |matches|);
      while index < |matches|
        invariant 0 <= index <= |matches|
        invariant identifies == Saved(old(identifies), ids, endpointId, matches, index)
      {
        SavedNext(old(identifies), ids, endpointId, matches, index);
        identifies := identifies[TrunkIdentifyId(uuid, index) := IdentifyRow(endpointId, matches[index])];
        index := index + 1;
      }
      assert ids[..index] == ids && matches[..index] == matches;
    }

    method DeleteRows(endpointId: string, uuid: Uuid, write: Write) returns (confirmed: bool)
      modifies this`endpoints, this`aors, this`auths, this`identifies
      ensures confirmed == (write == Done)
      ensures Rows() == if write == Failed then old(Rows()) else Remove(old(Rows()), endpointId, uuid)
    {
      if write == Failed {
        return false;
      }
      identifies := WithoutEndpoints(identifies, {endpointId});
      endpoints := endpoints - {endpointId};
      auths := auths - {TrunkAuthId(uuid)};
      aors := aors - {endpointId};
      return write == Done;
    }

    // ---------- The trunk table ----------

    method SaveTrunk(trunk: Trunk, write: Write) returns (confirmed: bool)
      modifies this`trunks
      ensures confirmed == (write == Done)
      ensures trunks == if write == Failed then old(trunks) else old(trunks)[trunk.id := trunk]
    {
      if write != Failed {
        trunks := trunks[trunk.id := trunk];
      }
      return write == Done;
    }

    // ---------- The service ----------

    method AssertEndpointIdentityAvailable(endpointId: string, exclude: Option<Uuid>) returns (error: Option<P.Error>)
      ensures error == AssertAvailable(State(), endpointId, exclude)
    {
      if u :| u in trunks && Some(u) != exclude && trunks[u].pjsipEndpointId == endpointId {
        return Some(EndpointTaken);
      }
      if u :| u in trunks && Some(u) != exclude && trunks[u].username == Some(endpointId) {
        return Some(UsernameTaken);
      }
      if endpointId !in endpoints {
        return None;
      }
      if exclude.Some? && exclude.value in trunks && trunks[exclude.value].pjsipEndpointId == endpointId {
        return None;
      }
      return Some(AlreadyProvisioned);
    }

    /** An error of the provisioning service is passed on; what was saved before it stays saved. */
    method SyncAsterisk(trunk: Trunk, previous: Option<string>, realtime: Write)
      returns (result: Result<Trunk, P.Error>)
      modifies this`endpoints, this`aors, this`auths, this`identifies
      ensures (State(), result) == Provision(old(State()), trunk, previous, Links(Done, realtime))
    {
      var confirmed := UpsertTrunk(InputFor(trunk, previous), trunk.id, realtime);
      if !confirmed {
        return Err(ProvisioningFailed);
      }
      return Ok(trunk);
    }

    method CreateTrunk(tenantId: Option<string>, id: Uuid, dto: CreateDto, links: Links)
      returns (result: Result<Trunk, P.Error>)
      modifies this
      ensures (State(), result) == P.CreateTrunk(old(State()), tenantId, id, dto, links)
    {
      if tenantId == None {
        return Err(Forbidden);
      }
      var invalid := AssertAuthFields(dto.authMode, dto.username, dto.password, dto.identifyIps);
      if invalid.Some? {
        return Err(invalid.value);
      }
      var trunk := NewTrunk(id, tenantId.value, dto);
      var endpointId := ResolveEndpointId(trunk.authMode, id, trunk.username);
      if endpointId.Err? {
        return Err(endpointId.error);
      }
      trunk := trunk.(pjsipEndpointId := endpointId.value);
      var taken := AssertEndpointIdentityAvailable(trunk.pjsipEndpointId, None);
      if taken.Some? {
        return Err(taken.value);
      }
      if !MatchesUnique(trunk.identifyIps) {
        return Err(DuplicateMatch);
      }
      var confirmed := SaveTrunk(trunk, links.trunks);
      if !confirmed {
        return Err(TrunkWriteFailed);
      }
      result := SyncAsterisk(trunk, None, links.realtime);
    }

    method UpdateTrunk(tenantId: Option<string>, id: Uuid, dto: UpdateDto, links: Links)
      returns (result: Result<Trunk, P.Error>)
      modifies this
      ensures (State(), result) == P.UpdateTrunk(old(State()), tenantId, id, dto, links)
    {
      var found := GetTrunkForTenant(tenantId, id);
      if found.Err? {
        return found;
      }
      var previous := found.value.pjsipEndpointId;
      var trunk := EditTrunk(found.value, dto);
      var invalid := AssertAuthFields(trunk.authMode, trunk.username, trunk.password, trunk.identifyIps);
      if invalid.Some? {
        return Err(invalid.value);
      }
      var endpointId := ResolveEndpointId(trunk.authMode, trunk.id, trunk.username);
      if endpointId.Err? {
        return Err(endpointId.error);
      }
      trunk := trunk.(pjsipEndpointId := endpointId.value);
      var taken := AssertEndpointIdentityAvailable(trunk.pjsipEndpointId, Some(trunk.id));
      if taken.Some? {
        return Err(taken.value);
      }
      if !MatchesUnique(trunk.identifyIps) {
        return Err(DuplicateMatch);
      }
      var confirmed := SaveTrunk(trunk, links.trunks);
      if !confirmed {
        return Err(TrunkWriteFailed);
      }
      result := SyncAsterisk(trunk, if previous != trunk.pjsipEndpointId then Some(previous) else None, links.realtime);
    }

    /** The fields the request names are overwritten one by one; address mode then drops the login. */
    static method EditTrunk(stored: Trunk, dto: UpdateDto) returns (trunk: Trunk)
      ensures trunk == UpdatedTrunk(stored, dto) && AskedBy(stored, dto, trunk)
    {
      EditedAsAsked(stored, dto);
      trunk := stored;
      if dto.name.Some? { trunk := trunk.(name := dto.name.value); }
      if dto.authMode.Some? { trunk := trunk.(authMode := dto.authMode.value); }
      if dto.enabled.Some? { trunk := trunk.(enabled := dto.enabled.value); }
      if dto.username.Some? { trunk := trunk.(username := TrimOption(dto.username.value)); }
      if dto.password.Some? { trunk := trunk.(password := dto.password.value); }
      if dto.identifyIps.Some? { trunk := trunk.(identifyIps := dto.identifyIps.value); }
      if trunk.authMode == Ip {
        trunk := trunk.(username := None, password := None);
      } else if trunk.username.Some? {
        trunk := trunk.(username := Some(Trim(trunk.username.value)));
      }
    }

    method DeleteTrunk(tenantId: Option<string>, id: Uuid, links: Links) returns (result: Result<Trunk, P.Error>)
      modifies this
      ensures (State(), result) == P.DeleteTrunk(old(State()), tenantId, id, links)
    {
      var found := GetTrunkForTenant(tenantId, id);
      if found.Err? {
        return found;
      }
      var confirmed := DeleteRows(found.value.pjsipEndpointId, found.value.id, links.realtime);
      if !confirmed {
        return Err(ProvisioningFailed);
      }
      if links.trunks == Failed {
        return Err(TrunkWriteFailed);
      }
      trunks := trunks - {found.value.id};
      return if links.trunks == Done then found else Err(TrunkWriteFailed);
    }

    method SyncTrunkAsterisk(tenantId: Option<string>, id: Uuid, links: Links)
      returns (result: Result<Trunk, P.Error>)
      modifies this
      ensures (State(), result) == SyncTrunk(old(State()), tenantId, id, links)
    {
      var found := GetTrunkForTenant(tenantId, id);
      if found.Err? {
        return found;
      }
      var trunk, previous := found.value, found.value.pjsipEndpointId;
      var endpointId := ResolveEndpointId(trunk.authMode, trunk.id, trunk.username);
      if endpointId.Err? {
        return Err(endpointId.error);
      }
      trunk := trunk.(pjsipEndpointId := endpointId.value);
      if trunk.pjsipEndpointId != previous {
        var taken := AssertEndpointIdentityAvailable(trunk.pjsipEndpointId, Some(trunk.id));
        if taken.Some? {
          return Err(taken.value);
        }
        var confirmed := SaveTrunk(trunk, links.trunks);
        if !confirmed {
          return Err(TrunkWriteFailed);
        }
      }
      result := SyncAsterisk(trunk, if previous != trunk.pjsipEndpointId then Some(previous) else None, links.realtime);
    }

    method GetTrunkForTenant(tenantId: Option<string>, id: Uuid) returns (result: Result<Trunk, P.Error>)
      ensures result == FindForTenant(State(), tenantId, id)
    {
      if tenantId == None {
        return Err(Forbidden);
      }
      if id !in trunks || trunks[id].tenantId != tenantId.value {
        return Err(NotFound);
      }
      return Ok(trunks[id]);
    }
  }
}
