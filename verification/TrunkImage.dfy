/** The realtime tables stay the exact image of the trunk table. */
module TrunkImage {
  import opened Prelude
  import opened Trimming
  import opened TrunkIds
  import opened TrunkProvisioning
  import opened RowImage

  // ---------- The rows of one trunk ----------

  function EndpointPart(t: Trunk): map<string, EndpointRow> {
    var auth := if t.authMode == Credentials then Some(TrunkAuthId(t.id)) else None;
    map[t.pjsipEndpointId := EndpointRow(t.pjsipEndpointId, auth, "from-trunk")]
  }

  function AorPart(t: Trunk): map<string, AorRow> {
    map[t.pjsipEndpointId := AorRow(1)]
  }

  /** Only credentials trunks authenticate. */
  function AuthPart(t: Trunk): map<string, AuthRow> {
    if t.authMode == Credentials then map[TrunkAuthId(t.id) := AuthRow(t.username, t.password)] else map[]
  }

  /** Only enabled trunks are identified by address: one row per match. */
  function IdentifyPart(t: Trunk): map<string, IdentifyRow> {
    if t.enabled then IdentifyRows(t.id, t.pjsipEndpointId, t.identifyIps) else map[]
  }

  ghost function Parts<R>(trunks: map<Uuid, Trunk>, part: Trunk -> map<string, R>): map<Uuid, map<string, R>> {
    map u | u in trunks :: part(trunks[u])
  }

  ghost predicate PlausibleMatches(matches: seq<string>) {
    |matches| <= MAX_IDENTIFIES && MatchesFit(matches)
  }

  /** A stored trunk: its endpoint id is its username, or derived from its uuid. */
  ghost predicate WellFormed(u: Uuid, t: Trunk) {
    && IsUuid(u) && t.id == u && MatchesUnique(t.identifyIps) && PlausibleMatches(t.identifyIps)
    && Trimmed(t.pjsipEndpointId) && |t.pjsipEndpointId| <= PJSIP_ID_MAX_LENGTH
    && if t.authMode == Credentials then t.username == Some(t.pjsipEndpointId)
       else t.username == None && t.password == None && t.pjsipEndpointId == TrunkEndpointId(u)
  }

  /** Rows of extensions: auth ids end in "-auth", and nothing is identified by address. */
  ghost predicate ForeignRows(foreign: Tables) {
    && foreign.identifies == map[]
    && foreign.aors.Keys == foreign.endpoints.Keys
    && forall k :: k in foreign.auths ==> k != "" && k[|k| - 1] == 'h'
  }

  /** The four tables hold the rows of the trunks and the foreign rows, and no others. */
  ghost predicate Consistent(s: Store, foreign: Tables) {
    AllWellFormed(s.trunks) && TablesImage(s.tables, s.trunks, foreign)
  }

  ghost predicate TablesImage(tables: Tables, trunks: map<Uuid, Trunk>, foreign: Tables) {
    && IsImage(tables.endpoints, Parts(trunks, EndpointPart), foreign.endpoints)
    && IsImage(tables.aors, Parts(trunks, AorPart), foreign.aors)
    && IsImage(tables.auths, Parts(trunks, AuthPart), foreign.auths)
    && IsImage(tables.identifies, Parts(trunks, IdentifyPart), foreign.identifies)
  }

  /** With distinct keys no row is lost. */
  lemma {:induction false} RowsUnderKeys(keys: seq<string>, endpointId: string, matches: seq<string>)
    requires |keys| == |matches| && Distinct(keys)
    ensures |RowsUnder(keys, endpointId, matches)| == |matches|
    ensures forall k :: k in RowsUnder(keys, endpointId, matches) <==> k in keys
  {
    if matches != [] {
      var n := |matches| - 1;
      RowsUnderKeys(keys[..n], endpointId, matches[..n]);
      var before := RowsUnder(keys[..n], endpointId, matches[..n]);
      assert keys == keys[..n] + [keys[n]];
      assert keys[n] !in before;
      assert RowsUnder(keys, endpointId, matches).Keys == before.Keys + {keys[n]};
    }
  }

  /** Row i is match i, under key i. */
  lemma {:induction false} RowsUnderExact(keys: seq<string>, endpointId: string, matches: seq<string>, i: nat)
    requires |keys| == |matches| && Distinct(keys) && i < |keys|
    ensures keys[i] in RowsUnder(keys, endpointId, matches)
    ensures RowsUnder(keys, endpointId, matches)[keys[i]] == IdentifyRow(endpointId, matches[i])
  {
    var n := |matches| - 1;
    if i < n {
      RowsUnderExact(keys[..n], endpointId, matches[..n], i);
    }
  }

  lemma IdentifyIdsDistinct(uuid: Uuid, n: nat)
    requires IsUuid(uuid) && n <= MAX_IDENTIFIES
    ensures Distinct(IdentifyIds(uuid, n))
  {
    IdentifyIdsDistinctIff(uuid, n);
  }

  /** The identify rows of a trunk: as many as its matches, all of its endpoint. */
  lemma IdentifyRowsExact(uuid: Uuid, endpointId: string, matches: seq<string>)
    requires IsUuid(uuid) && |matches| <= MAX_IDENTIFIES
    ensures var rows := IdentifyRows(uuid, endpointId, matches);
            && |rows| == |matches|
            && (forall i :: 0 <= i < |matches| ==>
                  IdentifyIds(uuid, |matches|)[i] in rows
                  && rows[IdentifyIds(uuid, |matches|)[i]] == IdentifyRow(endpointId, matches[i]))
            && (forall k :: k in rows ==> rows[k].endpoint == endpointId && k in IdentifyIds(uuid, |matches|))
  {
    var ids := IdentifyIds(uuid, |matches|);
    IdentifyIdsDistinct(uuid, |matches|);
    RowsUnderKeys(ids, endpointId, matches);
    RowsUnderEndpoint(ids, endpointId, matches);
    var rows := RowsUnder(ids, endpointId, matches);
    forall i | 0 <= i < |matches| ensures ids[i] in rows && rows[ids[i]] == IdentifyRow(endpointId, matches[i]) {
      RowsUnderExact(ids, endpointId, matches, i);
    }
  }

  /** Whatever order a trunk's matches are loaded in, its identify rows have the same ids and the same matches. */
  lemma ReorderedRows(uuid: Uuid, endpointId: string, matches: seq<string>, matches': seq<string>)
    requires IsUuid(uuid) && |matches| <= MAX_IDENTIFIES && multiset(matches) == multiset(matches')
    ensures var rows, rows' := IdentifyRows(uuid, endpointId, matches), IdentifyRows(uuid, endpointId, matches');
            rows.Keys == rows'.Keys && rows.Values == rows'.Values
  {
    assert |matches| == |multiset(matches)| == |multiset(matches')| == |matches'|;
    ReorderedHeld(uuid, endpointId, matches, matches');
    ReorderedHeld(uuid, endpointId, matches', matches);
  }

  lemma ReorderedHeld(uuid: Uuid, endpointId: string, matches: seq<string>, matches': seq<string>)
    requires IsUuid(uuid) && |matches| == |matches'| <= MAX_IDENTIFIES && multiset(matches) == multiset(matches')
    ensures var rows, rows' := IdentifyRows(uuid, endpointId, matches), IdentifyRows(uuid, endpointId, matches');
            rows.Keys <= rows'.Keys && rows.Values <= rows'.Values
  {
    var ids, rows' := IdentifyIds(uuid, |matches|), IdentifyRows(uuid, endpointId, matches');
    var rows := IdentifyRows(uuid, endpointId, matches);
    IdentifyRowsExact(uuid, endpointId, matches);
    IdentifyRowsExact(uuid, endpointId, matches');
    forall k | k in rows ensures k in rows' && rows[k] in rows'.Values {
      var i :| 0 <= i < |ids| && ids[i] == k;
      assert matches[i] in multiset(matches');
      var j :| 0 <= j < |matches'| && matches'[j] == matches[i];
      assert rows'[ids[j]] == rows[k];
    }
  }

  lemma IdentifyPartsDisjoint(u: Uuid, t: Trunk, v: Uuid, t': Trunk)
    requires IsUuid(u) && IsUuid(v) && t.id == u && t'.id == v && u != v
    requires |t.identifyIps| <= MAX_IDENTIFIES && |t'.identifyIps| <= MAX_IDENTIFIES
    ensures IdentifyPart(t).Keys !! IdentifyPart(t').Keys
  {
    IdentifyRowsExact(u, t.pjsipEndpointId, t.identifyIps);
    IdentifyRowsExact(v, t'.pjsipEndpointId, t'.identifyIps);
    forall k | k in IdentifyPart(t) && k in IdentifyPart(t') ensures false {
      var i :| 0 <= i < |t.identifyIps| && k == IdentifyIds(u, |t.identifyIps|)[i];
      var j :| 0 <= j < |t'.identifyIps| && k == IdentifyIds(v, |t'.identifyIps|)[j];
      IdentifyIdsInjective(u, i, v, j);
    }
  }

  // ---------- Storing one trunk ----------

  /** The endpoint ids a trunk gives up or takes: no other trunk and no foreign endpoint has them. */
  ghost predicate EndpointsFree(trunks: map<Uuid, Trunk>, foreign: Tables, u: Uuid, endpoints: set<string>) {
    && endpoints !! foreign.endpoints.Keys
    && (forall v :: v in trunks && v != u ==> trunks[v].pjsipEndpointId !in endpoints)
    && (u in trunks ==> trunks[u].pjsipEndpointId in endpoints)
  }

  ghost predicate AllWellFormed(trunks: map<Uuid, Trunk>) {
    forall u :: u in trunks ==> WellFormed(u, trunks[u])
  }

  ghost function Rewritten(tables: Tables, u: Uuid, t: Trunk, cleared: set<string>): Tables {
    Tables((tables.endpoints - cleared) + EndpointPart(t), (tables.aors - cleared) + AorPart(t),
           (tables.auths - {TrunkAuthId(u)}) + AuthPart(t),
           WithoutEndpoints(tables.identifies, cleared) + IdentifyPart(t))
  }

  /** The endpoint ids whose rows are dropped before the new ones are written. */
  function Cleared(previous: Option<string>, endpointId: string): set<string> {
    (if previous.Some? then {previous.value} else {}) + {endpointId}
  }

  /** What provisioning a well-formed trunk does: clear its old and new endpoint, then write its rows. */
  lemma UpsertTables(tables: Tables, u: Uuid, t: Trunk, previous: Option<string>)
    requires WellFormed(u, t) && (previous.Some? ==> Trimmed(previous.value))
    ensures Upsert(tables, InputFor(t, previous), u) == Rewritten(tables, u, t, Cleared(previous, t.pjsipEndpointId))
  {
    UpsertEndpoints(tables, u, t, previous);
    UpsertAuths(tables, u, t, previous);
    UpsertIdentifies(tables, u, t, previous);
  }

  lemma UpsertEndpoints(tables: Tables, u: Uuid, t: Trunk, previous: Option<string>)
    requires WellFormed(u, t) && (previous.Some? ==> Trimmed(previous.value))
    ensures var cleared := Cleared(previous, t.pjsipEndpointId);
            var r, r' := Upsert(tables, InputFor(t, previous), u), Rewritten(tables, u, t, cleared);
            r.endpoints == r'.endpoints && r.aors == r'.aors
  {
    var gone := Abandoned(InputFor(t, previous));
    InputCleared(u, t, previous);
    WriteAfterClear(tables.endpoints, gone, t.pjsipEndpointId, EndpointPart(t)[t.pjsipEndpointId]);
    WriteAfterClear(tables.aors, gone, t.pjsipEndpointId, AorRow(1));
  }

  lemma UpsertAuths(tables: Tables, u: Uuid, t: Trunk, previous: Option<string>)
    requires WellFormed(u, t)
    ensures Upsert(tables, InputFor(t, previous), u).auths == (tables.auths - {TrunkAuthId(u)}) + AuthPart(t)
  {
    if t.authMode == Credentials {
      TrimResult(t.pjsipEndpointId);
      WriteAfterClear(tables.auths, {}, TrunkAuthId(u), AuthRow(t.username, t.password));
    }
  }

  lemma UpsertIdentifies(tables: Tables, u: Uuid, t: Trunk, previous: Option<string>)
    requires WellFormed(u, t) && (previous.Some? ==> Trimmed(previous.value))
    ensures Upsert(tables, InputFor(t, previous), u).identifies
            == WithoutEndpoints(tables.identifies, Cleared(previous, t.pjsipEndpointId)) + IdentifyPart(t)
  {
    InputCleared(u, t, previous);
  }

  lemma InputCleared(u: Uuid, t: Trunk, previous: Option<string>)
    requires WellFormed(u, t) && (previous.Some? ==> Trimmed(previous.value))
    ensures ProvisionedEndpoint(InputFor(t, previous)) == t.pjsipEndpointId
    ensures Abandoned(InputFor(t, previous)) + {t.pjsipEndpointId} == Cleared(previous, t.pjsipEndpointId)
    ensures TrimOption(t.username) == t.username
  {
    TrimResult(t.pjsipEndpointId);
    if previous.Some? { TrimResult(previous.value); }
  }

  lemma WriteAfterClear<R>(table: map<string, R>, gone: set<string>, key: string, row: R)
    ensures (table - gone)[key := row] == (table - (gone + {key})) + map[key := row]
    ensures gone == {} ==> table[key := row] == (table - {key}) + map[key := row]
  {
  }

  lemma EndpointsImage(trunks: map<Uuid, Trunk>, table: map<string, EndpointRow>, foreign: Tables,
                       u: Uuid, t: Trunk, cleared: set<string>)
    requires IsImage(table, Parts(trunks, EndpointPart), foreign.endpoints)
    requires EndpointsFree(trunks, foreign, u, cleared) && t.pjsipEndpointId in cleared
    ensures IsImage((table - cleared) + EndpointPart(t), Parts(trunks[u := t], EndpointPart), foreign.endpoints)
  {
    ImageReplaceWithin(table, Parts(trunks, EndpointPart), foreign.endpoints, u, cleared, EndpointPart(t));
    PartsPut(trunks, u, t, EndpointPart);
  }

  lemma AorsImage(trunks: map<Uuid, Trunk>, table: map<string, AorRow>, foreign: Tables,
                  u: Uuid, t: Trunk, cleared: set<string>)
    requires IsImage(table, Parts(trunks, AorPart), foreign.aors) && foreign.aors.Keys == foreign.endpoints.Keys
    requires EndpointsFree(trunks, foreign, u, cleared) && t.pjsipEndpointId in cleared
    ensures IsImage((table - cleared) + AorPart(t), Parts(trunks[u := t], AorPart), foreign.aors)
  {
    ImageReplaceWithin(table, Parts(trunks, AorPart), foreign.aors, u, cleared, AorPart(t));
    PartsPut(trunks, u, t, AorPart);
  }

  /** No other trunk and no extension has the auth id derived from this uuid. */
  lemma AuthIdFree(trunks: map<Uuid, Trunk>, foreign: Tables, u: Uuid)
    requires AllWellFormed(trunks) && ForeignRows(foreign) && IsUuid(u)
    ensures var parts := Parts(trunks, AuthPart);
            && {TrunkAuthId(u)} !! foreign.auths.Keys
            && (u in parts ==> parts[u].Keys <= {TrunkAuthId(u)})
            && forall v :: v in parts && v != u ==> {TrunkAuthId(u)} !! parts[v].Keys
  {
    DerivedIdsFit(u, 0);
    forall v | v in trunks && v != u ensures TrunkAuthId(v) != TrunkAuthId(u) {
      if TrunkAuthId(v) == TrunkAuthId(u) { EndpointAndAuthIdsInjective(u, v); }
    }
  }

  lemma AuthsImage(trunks: map<Uuid, Trunk>, table: map<string, AuthRow>, foreign: Tables, u: Uuid, t: Trunk)
    requires IsImage(table, Parts(trunks, AuthPart), foreign.auths) && ForeignRows(foreign)
    requires AllWellFormed(trunks) && IsUuid(u) && t.id == u
    ensures IsImage((table - {TrunkAuthId(u)}) + AuthPart(t), Parts(trunks[u := t], AuthPart), foreign.auths)
  {
    var parts, authId, part := Parts(trunks, AuthPart), TrunkAuthId(u), AuthPart(t);
    AuthIdFree(trunks, foreign, u);
    assert part.Keys <= {authId};
    PartsPut(trunks, u, t, AuthPart);
    ImageReplaceWithin(table, parts, foreign.auths, u, {authId}, part);
  }

  lemma PartsPut<R>(trunks: map<Uuid, Trunk>, u: Uuid, t: Trunk, part: Trunk -> map<string, R>)
    ensures Parts(trunks[u := t], part) == Parts(trunks, part)[u := part(t)]
  {
  }

  ghost function KeysOf(table: map<string, IdentifyRow>, endpoints: set<string>): set<string> {
    set k | k in table && table[k].endpoint in endpoints
  }

  lemma {:induction false} RowsUnderEndpoint(keys: seq<string>, endpointId: string, matches: seq<string>)
    requires |keys| == |matches|
    ensures forall k :: k in RowsUnder(keys, endpointId, matches) ==>
              RowsUnder(keys, endpointId, matches)[k].endpoint == endpointId
  {
    if matches != [] {
      RowsUnderEndpoint(keys[..|keys| - 1], endpointId, matches[..|matches| - 1]);
    }
  }

  /** Every identify row in the table carries the endpoint of the trunk it belongs to. */
  lemma IdentifyRowOwner(trunks: map<Uuid, Trunk>, table: map<string, IdentifyRow>, v: Uuid, k: string)
    requires IsImage(table, Parts(trunks, IdentifyPart), map[]) && v in trunks
    requires k in IdentifyPart(trunks[v])
    ensures k in table && table[k].endpoint == trunks[v].pjsipEndpointId
  {
    var t := trunks[v];
    assert k in Parts(trunks, IdentifyPart)[v];
    RowsUnderEndpoint(IdentifyIds(t.id, |t.identifyIps|), t.pjsipEndpointId, t.identifyIps);
  }

  /** The identify rows of endpoints only this trunk has are this trunk's rows. */
  lemma ClearedIdentifies(trunks: map<Uuid, Trunk>, table: map<string, IdentifyRow>, u: Uuid, cleared: set<string>)
    requires IsImage(table, Parts(trunks, IdentifyPart), map[]) && AllWellFormed(trunks)
    requires forall v :: v in trunks ==> (v == u <==> trunks[v].pjsipEndpointId in cleared)
    ensures WithoutEndpoints(table, cleared) == table - KeysOf(table, cleared)
    ensures u in trunks ==> IdentifyPart(trunks[u]).Keys <= KeysOf(table, cleared)
    ensures forall v :: v in trunks && v != u ==> KeysOf(table, cleared) !! IdentifyPart(trunks[v]).Keys
  {
    forall v, k | v in trunks && k in IdentifyPart(trunks[v])
      ensures k in KeysOf(table, cleared) <==> v == u
    {
      IdentifyRowOwner(trunks, table, v, k);
    }
  }

  lemma IdentifiesImage(trunks: map<Uuid, Trunk>, table: map<string, IdentifyRow>, foreign: Tables,
                        u: Uuid, t: Trunk, cleared: set<string>)
    requires IsImage(table, Parts(trunks, IdentifyPart), map[]) && AllWellFormed(trunks) && WellFormed(u, t)
    requires EndpointsFree(trunks, foreign, u, cleared)
    ensures IsImage(WithoutEndpoints(table, cleared) + IdentifyPart(t), Parts(trunks[u := t], IdentifyPart), map[])
  {
    ClearedIdentifies(trunks, table, u, cleared);
    forall v | v in trunks && v != u ensures IdentifyPart(t).Keys !! IdentifyPart(trunks[v]).Keys {
      IdentifyPartsDisjoint(u, t, v, trunks[v]);
    }
    ImageReplace(table, Parts(trunks, IdentifyPart), map[], u, KeysOf(table, cleared), IdentifyPart(t));
    PartsPut(trunks, u, t, IdentifyPart);
  }

  /** Consistent trunks have pairwise different endpoint ids, none of them foreign. */
  lemma OwnEndpointFree(s: Store, foreign: Tables, u: Uuid)
    requires IsImage(s.tables.endpoints, Parts(s.trunks, EndpointPart), foreign.endpoints) && u in s.trunks
    ensures EndpointsFree(s.trunks, foreign, u, {s.trunks[u].pjsipEndpointId})
  {
    var parts := Parts(s.trunks, EndpointPart);
    assert s.trunks[u].pjsipEndpointId in parts[u].Keys;
    forall v | v in s.trunks && v != u ensures s.trunks[v].pjsipEndpointId != s.trunks[u].pjsipEndpointId {
      assert s.trunks[v].pjsipEndpointId in parts[v].Keys && parts[u].Keys !! parts[v].Keys;
    }
  }

  /** No other trunk and no extension has the endpoint id. */
  ghost predicate Free(s: Store, foreign: Tables, u: Uuid, endpointId: string) {
    endpointId !in foreign.endpoints
    && forall v :: v in s.trunks && v != u ==> s.trunks[v].pjsipEndpointId != endpointId
  }

  /** Saving a trunk whose endpoint id is free, and provisioning it, keeps the tables its image. */
  lemma StoreKeepsImage(s: Store, foreign: Tables, u: Uuid, t: Trunk)
    requires Consistent(s, foreign) && ForeignRows(foreign) && WellFormed(u, t)
    requires Free(s, foreign, u, t.pjsipEndpointId)
    ensures Consistent(Provisioned(s, u, t), foreign)
  {
    AllWellFormedPut(s.trunks, u, t);
    StoreKeepsTables(s, foreign, u, t);
  }

  lemma AllWellFormedPut(trunks: map<Uuid, Trunk>, u: Uuid, t: Trunk)
    requires AllWellFormed(trunks) && WellFormed(u, t)
    ensures AllWellFormed(trunks[u := t])
  {
  }

  lemma StoreKeepsTables(s: Store, foreign: Tables, u: Uuid, t: Trunk)
    requires Consistent(s, foreign) && ForeignRows(foreign) && WellFormed(u, t)
    requires Free(s, foreign, u, t.pjsipEndpointId)
    ensures TablesImage(Provisioned(s, u, t).tables, s.trunks[u := t], foreign)
  {
    var previous := PreviousId(s.trunks, u, t.pjsipEndpointId);
    ClearedIsFree(s, foreign, u, t.pjsipEndpointId);
    UpsertTables(s.tables, u, t, previous);
    RewrittenImage(s, foreign, u, t, Cleared(previous, t.pjsipEndpointId));
  }

  ghost function Provisioned(s: Store, u: Uuid, t: Trunk): Store {
    Store(s.trunks[u := t], Upsert(s.tables, InputFor(t, PreviousId(s.trunks, u, t.pjsipEndpointId)), u))
  }

  lemma ClearedIsFree(s: Store, foreign: Tables, u: Uuid, endpointId: string)
    requires Consistent(s, foreign) && Free(s, foreign, u, endpointId)
    ensures EndpointsFree(s.trunks, foreign, u, Cleared(PreviousId(s.trunks, u, endpointId), endpointId))
    ensures PreviousId(s.trunks, u, endpointId).Some? ==> Trimmed(PreviousId(s.trunks, u, endpointId).value)
  {
    if u in s.trunks {
      assert WellFormed(u, s.trunks[u]);
      OwnEndpointFree(s, foreign, u);
    }
  }

  lemma RewrittenImage(s: Store, foreign: Tables, u: Uuid, t: Trunk, cleared: set<string>)
    requires Consistent(s, foreign) && ForeignRows(foreign) && WellFormed(u, t)
    requires EndpointsFree(s.trunks, foreign, u, cleared) && t.pjsipEndpointId in cleared
    ensures TablesImage(Rewritten(s.tables, u, t, cleared), s.trunks[u := t], foreign)
  {
    EndpointsImage(s.trunks, s.tables.endpoints, foreign, u, t, cleared);
    AorsImage(s.trunks, s.tables.aors, foreign, u, t, cleared);
    AuthsImage(s.trunks, s.tables.auths, foreign, u, t);
    IdentifiesImage(s.trunks, s.tables.identifies, foreign, u, t, cleared);
  }

  // ---------- Deleting one trunk ----------

  lemma PartsRemove<R>(trunks: map<Uuid, Trunk>, u: Uuid, part: Trunk -> map<string, R>)
    ensures Parts(trunks - {u}, part) == Parts(trunks, part) - {u}
  {
  }

  lemma DeleteKeepsImage(s: Store, foreign: Tables, u: Uuid)
    requires Consistent(s, foreign) && ForeignRows(foreign) && u in s.trunks
    ensures Consistent(Store(s.trunks - {u}, Remove(s.tables, s.trunks[u].pjsipEndpointId, u)), foreign)
  {
    var cleared := {s.trunks[u].pjsipEndpointId};
    OwnEndpointFree(s, foreign, u);
    EndpointsRemoved(s.trunks, s.tables.endpoints, foreign, u, cleared);
    AorsRemoved(s.trunks, s.tables.aors, foreign, u, cleared);
    IdentifiesRemoved(s.trunks, s.tables.identifies, foreign, u, cleared);
    AuthIdFree(s.trunks, foreign, u);
    ImageRemove(s.tables.auths, Parts(s.trunks, AuthPart), foreign.auths, u, {TrunkAuthId(u)});
    PartsRemove(s.trunks, u, AuthPart);
  }

  lemma EndpointsRemoved(trunks: map<Uuid, Trunk>, table: map<string, EndpointRow>, foreign: Tables,
                         u: Uuid, cleared: set<string>)
    requires IsImage(table, Parts(trunks, EndpointPart), foreign.endpoints)
    requires EndpointsFree(trunks, foreign, u, cleared)
    ensures IsImage(table - cleared, Parts(trunks - {u}, EndpointPart), foreign.endpoints)
  {
    ImageRemove(table, Parts(trunks, EndpointPart), foreign.endpoints, u, cleared);
    PartsRemove(trunks, u, EndpointPart);
  }

  lemma AorsRemoved(trunks: map<Uuid, Trunk>, table: map<string, AorRow>, foreign: Tables,
                    u: Uuid, cleared: set<string>)
    requires IsImage(table, Parts(trunks, AorPart), foreign.aors) && foreign.aors.Keys == foreign.endpoints.Keys
    requires EndpointsFree(trunks, foreign, u, cleared)
    ensures IsImage(table - cleared, Parts(trunks - {u}, AorPart), foreign.aors)
  {
    ImageRemove(table, Parts(trunks, AorPart), foreign.aors, u, cleared);
    PartsRemove(trunks, u, AorPart);
  }

  lemma IdentifiesRemoved(trunks: map<Uuid, Trunk>, table: map<string, IdentifyRow>, foreign: Tables,
                          u: Uuid, cleared: set<string>)
    requires IsImage(table, Parts(trunks, IdentifyPart), map[]) && AllWellFormed(trunks) && u in trunks
    requires EndpointsFree(trunks, foreign, u, cleared)
    ensures IsImage(WithoutEndpoints(table, cleared), Parts(trunks - {u}, IdentifyPart), map[])
  {
    ClearedIdentifies(trunks, table, u, cleared);
    ImageRemove(table, Parts(trunks, IdentifyPart), map[], u, KeysOf(table, cleared));
    PartsRemove(trunks, u, IdentifyPart);
  }
}
