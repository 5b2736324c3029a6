/** A table assembled from the rows of its owners and from foreign rows. */
module RowImage {
  /** The table consists of the foreign rows and the rows of every part, and of nothing else; no two
      of them share a key. */
  ghost predicate IsImage<R>(table: map<string, R>, parts: map<string, map<string, R>>, foreign: map<string, R>) {
    Holds(table, parts, foreign) && Covered(table, parts, foreign) && Apart(parts, foreign)
  }

  ghost predicate Holds<R>(table: map<string, R>, parts: map<string, map<string, R>>, foreign: map<string, R>) {
    && (forall u, k :: u in parts && k in parts[u] ==> k in table && table[k] == parts[u][k])
    && (forall k :: k in foreign ==> k in table && table[k] == foreign[k])
  }

  ghost predicate Covered<R>(table: map<string, R>, parts: map<string, map<string, R>>, foreign: map<string, R>) {
    forall k :: k in table ==> k in foreign || exists u :: u in parts && k in parts[u]
  }

  ghost predicate Apart<R>(parts: map<string, map<string, R>>, foreign: map<string, R>) {
    && (forall u, v :: u in parts && v in parts && u != v ==> parts[u].Keys !! parts[v].Keys)
    && (forall u :: u in parts ==> parts[u].Keys !! foreign.Keys)
  }

  /** Clearing the keys of one part, and none of any other row, takes exactly that part out. */
  lemma ImageRemove<R>(table: map<string, R>, parts: map<string, map<string, R>>, foreign: map<string, R>,
                       u: string, cleared: set<string>)
    requires IsImage(table, parts, foreign)
    requires u in parts ==> parts[u].Keys <= cleared
    requires cleared !! foreign.Keys && forall v :: v in parts && v != u ==> cleared !! parts[v].Keys
    ensures IsImage(table - cleared, parts - {u}, foreign)
  {
    var table', parts' := table - cleared, parts - {u};
    assert Apart(parts', foreign);
    assert Holds(table', parts', foreign);
    forall k | k in table' ensures k in foreign || exists v :: v in parts' && k in parts'[v] {
      if k !in foreign {
        var v :| v in parts && k in parts[v];
        assert v in parts' && k in parts'[v];
      }
    }
  }

  lemma CoveredAdd<R>(table: map<string, R>, parts: map<string, map<string, R>>, foreign: map<string, R>,
                      u: string, part: map<string, R>)
    requires Covered(table, parts, foreign) && u !in parts
    ensures Covered(table + part, parts[u := part], foreign)
  {
    var table', parts' := table + part, parts[u := part];
    forall k | k in table' ensures k in foreign || exists v :: v in parts' && k in parts'[v] {
      if k in part {
        assert k in parts'[u];
      } else if k !in foreign {
        var v :| v in parts && k in parts[v];
        assert k in parts'[v];
      }
    }
  }

  lemma ApartAdd<R>(parts: map<string, map<string, R>>, foreign: map<string, R>, u: string, part: map<string, R>)
    requires Apart(parts, foreign) && u !in parts
    requires part.Keys !! foreign.Keys && forall v :: v in parts ==> part.Keys !! parts[v].Keys
    ensures Apart(parts[u := part], foreign)
  {
  }

  lemma HoldsAdd<R>(table: map<string, R>, parts: map<string, map<string, R>>, foreign: map<string, R>,
                    u: string, part: map<string, R>)
    requires Holds(table, parts, foreign) && u !in parts
    requires part.Keys !! foreign.Keys && forall v :: v in parts ==> part.Keys !! parts[v].Keys
    ensures Holds(table + part, parts[u := part], foreign)
  {
    forall v, k | v in parts && k in parts[v] ensures k !in part {
      assert part.Keys !! parts[v].Keys;
    }
  }

  /** Adding a part whose keys are new. */
  lemma ImageAdd<R>(table: map<string, R>, parts: map<string, map<string, R>>, foreign: map<string, R>,
                    u: string, part: map<string, R>)
    requires IsImage(table, parts, foreign) && u !in parts
    requires part.Keys !! foreign.Keys && forall v :: v in parts ==> part.Keys !! parts[v].Keys
    ensures IsImage(table + part, parts[u := part], foreign)
  {
    HoldsAdd(table, parts, foreign, u, part);
    CoveredAdd(table, parts, foreign, u, part);
    ApartAdd(parts, foreign, u, part);
  }

  /** Exchanging one part for another: clear, then write. */
  lemma ImageReplace<R>(table: map<string, R>, parts: map<string, map<string, R>>, foreign: map<string, R>,
                        u: string, cleared: set<string>, part: map<string, R>)
    requires IsImage(table, parts, foreign)
    requires u in parts ==> parts[u].Keys <= cleared
    requires cleared !! foreign.Keys && forall v :: v in parts && v != u ==> cleared !! parts[v].Keys
    requires part.Keys !! foreign.Keys && forall v :: v in parts && v != u ==> part.Keys !! parts[v].Keys
    ensures IsImage((table - cleared) + part, parts[u := part], foreign)
  {
    ImageRemove(table, parts, foreign, u, cleared);
    ImageAdd(table - cleared, parts - {u}, foreign, u, part);
    assert (parts - {u})[u := part] == parts[u := part];
  }

  /** Exchanging a part for one within the cleared keys. */
  lemma ImageReplaceWithin<R>(table: map<string, R>, parts: map<string, map<string, R>>, foreign: map<string, R>,
                              u: string, cleared: set<string>, part: map<string, R>)
    requires IsImage(table, parts, foreign) && part.Keys <= cleared
    requires u in parts ==> parts[u].Keys <= cleared
    requires cleared !! foreign.Keys && forall v :: v in parts && v != u ==> cleared !! parts[v].Keys
    ensures IsImage((table - cleared) + part, parts[u := part], foreign)
  {
    ImageReplace(table, parts, foreign, u, cleared, part);
  }

  /** A table is the image of only one choice of rows for u. */
  lemma ImageDetermines<R>(table: map<string, R>, parts: map<string, map<string, R>>, foreign: map<string, R>,
                           u: string, part: map<string, R>)
    requires IsImage(table, parts, foreign) && IsImage(table, parts[u := part], foreign)
    ensures part == if u in parts then parts[u] else map[]
  {
    var before := if u in parts then parts[u] else map[];
    forall k | k in part ensures k in before && before[k] == part[k] {
      OwnerOf(table, parts, parts[u := part], foreign, u, k);
    }
    forall k | k in before ensures k in part {
      OwnerOf(table, parts[u := part], parts, foreign, u, k);
    }
  }

  /** A row of u in one image is a row of u in every other that differs in the rows of u only. */
  lemma OwnerOf<R>(table: map<string, R>, parts: map<string, map<string, R>>, parts': map<string, map<string, R>>,
                   foreign: map<string, R>, u: string, k: string)
    requires IsImage(table, parts, foreign) && IsImage(table, parts', foreign)
    requires forall v :: v in parts && v != u ==> v in parts' && parts'[v] == parts[v]
    requires u in parts' && k in parts'[u]
    ensures u in parts && k in parts[u] && parts[u][k] == parts'[u][k]
  {
    assert k in table && k !in foreign.Keys;
    var v :| v in parts && k in parts[v];
    SameOwner(parts', foreign, u, v, k);
  }

  lemma SameOwner<R>(parts: map<string, map<string, R>>, foreign: map<string, R>, u: string, v: string, k: string)
    requires Apart(parts, foreign) && u in parts && v in parts && k in parts[u] && k in parts[v]
    ensures u == v
  {
    assert k in parts[u].Keys * parts[v].Keys;
  }

  /** Parts and foreign rows determine the table. */
  lemma ImageUnique<R>(table: map<string, R>, table': map<string, R>, parts: map<string, map<string, R>>,
                       foreign: map<string, R>)
    requires IsImage(table, parts, foreign) && IsImage(table', parts, foreign)
    ensures table == table'
  {
    forall k | k in table ensures k in table' && table'[k] == table[k] {
      HeldRow(table, table', parts, foreign, k);
    }
    forall k | k in table' ensures k in table {
      HeldRow(table', table, parts, foreign, k);
    }
  }

  lemma HeldRow<R>(table: map<string, R>, table': map<string, R>, parts: map<string, map<string, R>>,
                   foreign: map<string, R>, k: string)
    requires Holds(table, parts, foreign) && Covered(table, parts, foreign) && Holds(table', parts, foreign)
    requires k in table
    ensures k in table' && table'[k] == table[k]
  {
    if k !in foreign {
      var u :| u in parts && k in parts[u];
    }
  }
}
