/** Cache writes that fail: the table is written first, so an operation cut off after that can leave stale
    entries behind. */
module CacheFailures {
  import opened Prelude
  import opened ConfigCache

  // ---------- Operations cut off after n cache writes ----------

  /** The first n of the two writes of `cacheConfig`. */
  function CutCache(s: State, c: Config, n: int): State {
    s.(byId := if n > 0 then s.byId[c.id := c] else s.byId, byKey := if n > 1 then s.byKey[c.key := c] else s.byKey)
  }

  /** A find by id writes both entries of a row it had to read. */
  function FindWrites(s: State, id: Id): nat {
    if id in s.byId || id !in s.table then 0 else 2
  }

  predicate Renames(c: Config, dto: UpdateDto) {
    dto.key.Some? && dto.key.value != "" && dto.key.value != c.key
  }

  /** The row is saved; then the old key's entry goes if the key changes, then both entries are written. */
  ghost function CutSave(s: State, c: Config, dto: UpdateDto, n: int): State {
    var saved := s.(table := s.table[c.id := Edited(c, dto)]);
    if Renames(c, dto) then
      CutCache(if n > 0 then saved.(byKey := s.byKey - {c.key}) else saved, Edited(c, dto), n - 1)
    else CutCache(saved, Edited(c, dto), n)
  }

  /** The row is deleted, then its two entries. */
  ghost function CutRemove(s: State, c: Config, n: int): State {
    State(s.table - {c.id}, if n > 0 then s.byId - {c.id} else s.byId, if n > 1 then s.byKey - {c.key} else s.byKey)
  }

  /** What is left when the cache write after the first n fails and the operation throws, n counting from its
      start; with no write left to fail the operation completes. */
  ghost function Cut(s: State, op: Op, n: nat): State {
    match op
    case Create(newId, dto) =>
      if HasKey(s.table, dto.key) then s
      else
        var c := Config(newId, dto.key, dto.value, dto.description);
        CutCache(s.(table := s.table[newId := c]), c, n)
    case Update(id, dto) =>
      if n < FindWrites(s, id) then CutCache(s, s.table[id], n)
      else if CachedUpdate(s, id, dto).1.Err? then CachedUpdate(s, id, dto).0
      else CutSave(CachedFindById(s, id).0, Found(s, id), dto, n - FindWrites(s, id))
    case Delete(id) =>
      if n < FindWrites(s, id) then CutCache(s, s.table[id], n)
      else if CachedDelete(s, id).1.Err? then s
      else CutRemove(CachedFindById(s, id).0, Found(s, id), n - FindWrites(s, id))
    case FindById(id) => if FindWrites(s, id) == 0 then s else CutCache(s, s.table[id], n)
    case FindByKey(key) =>
      if key in s.byKey || !HasKey(s.table, key) then s else CutCache(s, GetByKey(s.table, key).value, n)
    case _ => Cached(s, op).0
  }

  /** The row an update or a deletion works on. */
  function Found(s: State, id: Id): Config {
    if id in s.byId then s.byId[id] else if id in s.table then s.table[id] else Config(id, "", "", None)
  }

  /** With all its writes done it is the operation. */
  lemma CutNowhere(s: State, op: Op, n: nat)
    requires n >= 5 && Coherent(s) && Plausible(s, op)
    ensures Cut(s, op, n) == Cached(s, op).0
  {
    match op
    case Update(id, dto) => FindByIdTransparent(s, id);
    case Delete(id) => FindByIdTransparent(s, id);
    case _ =>
  }

  // ---------- Exactly when no stale entry is left ----------

  /** The cut falls before the table is written, or the row does not change, or no old entry is left: a rename
      needs its first two writes, any other change the first, and the second if the key is cached. */
  ghost predicate SafeCut(s: State, op: Op, n: nat) {
    match op
    case Update(id, dto) =>
      || n < FindWrites(s, id) || CachedUpdate(s, id, dto).1.Err?
      || SafeSave(CachedFindById(s, id).0, Found(s, id), dto, n - FindWrites(s, id))
    case Delete(id) =>
      || n < FindWrites(s, id) || CachedDelete(s, id).1.Err?
      || SafeRemove(CachedFindById(s, id).0, Found(s, id), n - FindWrites(s, id))
    case _ => true
  }

  ghost predicate SafeSave(s: State, c: Config, dto: UpdateDto, n: int) {
    Edited(c, dto) == c || n >= 2 || (n == 1 && !Renames(c, dto) && c.key !in s.byKey)
  }

  ghost predicate SafeRemove(s: State, c: Config, n: int) {
    n >= 2 || (n == 1 && c.key !in s.byKey)
  }

  /** The row is in the table, its entries in the cache are its own, and its id is cached. */
  ghost predicate Current(s: State, c: Config) {
    Coherent(s) && c.id in s.table && s.table[c.id] == c && c.id in s.byId
  }

  lemma FoundIsCurrent(s: State, id: Id)
    requires Coherent(s) && id in s.table
    ensures Current(CachedFindById(s, id).0, Found(s, id)) && Found(s, id) == s.table[id]
    ensures CachedFindById(s, id).0.table == s.table
  {
    FindByIdTransparent(s, id);
  }

  lemma CutCacheKeepsCoherent(s: State, c: Config, n: int)
    requires Coherent(s) && c.id in s.table && s.table[c.id] == c
    ensures Coherent(CutCache(s, c, n))
  {
  }

  lemma CutSaveIff(s: State, c: Config, dto: UpdateDto, n: int)
    requires Current(s, c) && n >= 0 && dto.key != Some("") && !KeyTaken(s.table, c.id, Edited(c, dto).key)
    ensures Coherent(CutSave(s, c, dto, n)) <==> SafeSave(s, c, dto, n)
  {
    var s', c' := CutSave(s, c, dto, n), Edited(c, dto);
    if c' == c {
      assert s.table[c.id := c'] == s.table;
      CutCacheKeepsCoherent(s, c, n);
    } else if n == 0 {
      assert s'.byId[c.id] == c && s'.table[c.id] == c';
    } else if Renames(c, dto) {
      CutRenameIff(s, c, dto, n);
    } else {
      CutEditIff(s, c, dto, n);
    }
  }

  lemma CutRenameIff(s: State, c: Config, dto: UpdateDto, n: int)
    requires Current(s, c) && n > 0 && Renames(c, dto) && !KeyTaken(s.table, c.id, Edited(c, dto).key)
    ensures Coherent(CutSave(s, c, dto, n)) <==> n >= 2
  {
    var s', c' := CutSave(s, c, dto, n), Edited(c, dto);
    if n == 1 {
      assert s'.byId[c.id] == c && s'.table[c.id] == c';
    } else {
      var both := CutSave(s, c, dto, 3);
      RewriteKeepsCoherent(s, both, c');
      if n == 2 { assert s'.byKey == s.byKey - {c.key}; }
    }
  }

  lemma CutEditIff(s: State, c: Config, dto: UpdateDto, n: int)
    requires Current(s, c) && n > 0 && !Renames(c, dto) && dto.key != Some("") && Edited(c, dto) != c
    requires !KeyTaken(s.table, c.id, Edited(c, dto).key)
    ensures Coherent(CutSave(s, c, dto, n)) <==> n >= 2 || c.key !in s.byKey
  {
    var s', c' := CutSave(s, c, dto, n), Edited(c, dto);
    RewriteKeepsCoherent(s, CutSave(s, c, dto, 2), c');
    if n == 1 && c.key in s.byKey {
      assert s'.byKey[c.key] == c && s'.table[c.id] == c';
    }
  }

  lemma CutRemoveIff(s: State, c: Config, n: int)
    requires Current(s, c) && n >= 0
    ensures Coherent(CutRemove(s, c, n)) <==> SafeRemove(s, c, n)
  {
    var s' := CutRemove(s, c, n);
    if n == 0 {
      assert c.id in s'.byId && c.id !in s'.table;
    } else if n == 1 && c.key in s.byKey {
      assert s'.byKey[c.key].id == c.id;
    } else {
      forall k | k in s'.byKey ensures s'.byKey[k].id != c.id {}
    }
  }

  /** One operation, whichever of its cache writes fails. */
  lemma CutIff(s: State, op: Op, n: nat)
    requires Coherent(s) && Plausible(s, op)
    ensures Coherent(Cut(s, op, n)) <==> SafeCut(s, op, n)
  {
    match op
    case Create(newId, dto) => CutCreate(s, newId, dto, n);
    case Update(id, dto) => CutUpdateIff(s, id, dto, n);
    case Delete(id) => CutDeleteIff(s, id, n);
    case FindById(id) => if FindWrites(s, id) > 0 { CutCacheKeepsCoherent(s, s.table[id], n); }
    case FindByKey(key) =>
      if HasKey(s.table, key) { CutCacheKeepsCoherent(s, GetByKey(s.table, key).value, n); }
    case _ => OpTransparent(s, op);
  }

  lemma CutCreate(s: State, newId: Id, dto: CreateDto, n: nat)
    requires Coherent(s) && newId !in s.table
    ensures Coherent(Cut(s, Create(newId, dto), n))
  {
    if !HasKey(s.table, dto.key) {
      var c := Config(newId, dto.key, dto.value, dto.description);
      forall id | id in s.table ensures s.table[id].key != dto.key {}
      CutCacheKeepsCoherent(s.(table := s.table[newId := c]), c, n);
    }
  }

  lemma CutUpdateIff(s: State, id: Id, dto: UpdateDto, n: nat)
    requires Coherent(s) && dto.key != Some("")
    ensures Coherent(Cut(s, Update(id, dto), n)) <==> SafeCut(s, Update(id, dto), n)
  {
    UpdateTransparent(s, id, dto);
    if n < FindWrites(s, id) {
      CutCacheKeepsCoherent(s, s.table[id], n);
    } else if CachedUpdate(s, id, dto).1.Ok? {
      FoundIsCurrent(s, id);
      CutSaveIff(CachedFindById(s, id).0, Found(s, id), dto, n - FindWrites(s, id));
    }
  }

  lemma CutDeleteIff(s: State, id: Id, n: nat)
    requires Coherent(s)
    ensures Coherent(Cut(s, Delete(id), n)) <==> SafeCut(s, Delete(id), n)
  {
    if n < FindWrites(s, id) {
      CutCacheKeepsCoherent(s, s.table[id], n);
    } else if id in s.table {
      FoundIsCurrent(s, id);
      CutRemoveIff(CachedFindById(s, id).0, Found(s, id), n - FindWrites(s, id));
    }
  }

  // ---------- What a stale entry does ----------

  ghost predicate AnswersTruly(s: State) {
    && (forall id {:trigger CachedFindById(s, id)} :: CachedFindById(s, id).1 == Uncached(s.table, FindById(id)).1)
    && (forall k {:trigger CachedFindByKey(s, k)} :: CachedFindByKey(s, k).1 == Uncached(s.table, FindByKey(k)).1)
  }

  /** Reads answer what the table says iff there is no stale entry. */
  lemma TrueAnswersIff(s: State)
    requires Unique(s.table)
    ensures AnswersTruly(s) <==> Coherent(s)
  {
    if AnswersTruly(s) {
      forall id | id in s.byId ensures id in s.table && s.byId[id] == s.table[id] {
        assert CachedFindById(s, id).1 == Uncached(s.table, FindById(id)).1;
      }
      forall k | k in s.byKey ensures s.byKey[k].id in s.table && s.byKey[k] == s.table[s.byKey[k].id]
                                      && s.byKey[k].key == k {
        assert CachedFindByKey(s, k).1 == Uncached(s.table, FindByKey(k)).1;
      }
    }
    if Coherent(s) {
      forall id ensures CachedFindById(s, id).1 == Uncached(s.table, FindById(id)).1 { FindByIdTransparent(s, id); }
      forall k ensures CachedFindByKey(s, k).1 == Uncached(s.table, FindByKey(k)).1 { FindByKeyTransparent(s, k); }
    }
  }

  // ---------- Runs ----------

  /** An operation and how many of its cache writes get through. */
  datatype Job = Job(op: Op, writes: nat)

  ghost predicate PlausibleJobs(s: State, jobs: seq<Job>)
    decreases |jobs|
  {
    jobs != [] ==> Plausible(s, jobs[0].op) && PlausibleJobs(Cut(s, jobs[0].op, jobs[0].writes), jobs[1..])
  }

  ghost predicate AlwaysTrue(s: State, jobs: seq<Job>)
    decreases |jobs|
  {
    AnswersTruly(s) && (jobs != [] ==> AlwaysTrue(Cut(s, jobs[0].op, jobs[0].writes), jobs[1..]))
  }

  ghost predicate AllSafe(s: State, jobs: seq<Job>)
    decreases |jobs|
  {
    jobs != [] ==>
      SafeCut(s, jobs[0].op, jobs[0].writes) && AllSafe(Cut(s, jobs[0].op, jobs[0].writes), jobs[1..])
  }

  /** Main result: over any run, wherever cache writes fail, reads answer what the table says after every
      operation iff no operation was cut off unsafely. */
  lemma {:induction false} TrueRunIff(s: State, jobs: seq<Job>)
    requires Coherent(s) && PlausibleJobs(s, jobs)
    ensures AlwaysTrue(s, jobs) <==> AllSafe(s, jobs)
    decreases |jobs|
  {
    TrueAnswersIff(s);
    if jobs != [] {
      var op, n := jobs[0].op, jobs[0].writes;
      var s' := Cut(s, op, n);
      CutIff(s, op, n);
      TableStaysUnique(s, op, n);
      TrueAnswersIff(s');
      if Coherent(s') { TrueRunIff(s', jobs[1..]); }
    }
  }

  lemma TableStaysUnique(s: State, op: Op, n: nat)
    requires Coherent(s) && Plausible(s, op)
    ensures Unique(Cut(s, op, n).table)
  {
    match op
    case Create(newId, dto) => CutCreate(s, newId, dto, n);
    case Update(id, dto) => SavedStaysUnique(s, id, dto, n);
    case Delete(id) => FindByIdTransparent(s, id);
    case FindByKey(key) => CutIff(s, op, n);
    case _ => OpTransparent(s, op);
  }

  lemma SavedStaysUnique(s: State, id: Id, dto: UpdateDto, n: nat)
    requires Coherent(s) && dto.key != Some("")
    ensures Unique(Cut(s, Update(id, dto), n).table)
  {
    UpdateTransparent(s, id, dto);
    if n >= FindWrites(s, id) && CachedUpdate(s, id, dto).1.Ok? {
      FoundIsCurrent(s, id);
      assert Cut(s, Update(id, dto), n).table == CachedUpdate(s, id, dto).0.table;
    }
  }
}
