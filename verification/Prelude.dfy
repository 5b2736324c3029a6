/** Definitions shared by every component model. */
module Prelude {

  datatype Option<+T> = None | Some(value: T)

  datatype Result<+T, +E> = Ok(value: T) | Err(error: E)

  /** No element occurs twice. */
  ghost predicate Distinct<T(!new)>(s: seq<T>) {
    forall i, j :: 0 <= i < j < |s| ==> s[i] != s[j]
  }

  /** `Array.prototype.filter` with `id !== x`. */
  function Without<T(==, !new)>(s: seq<T>, x: T): (r: seq<T>)
    ensures forall y :: y in r <==> y in s && y != x
    ensures Distinct(s) ==> Distinct(r)
    ensures |r| <= |s|
    ensures x !in s ==> r == s
  {
    if s == [] then []
    else
      var rest := Without(s[1..], x);
      assert forall i :: 0 <= i < |rest| ==> rest[i] in rest && rest[i] in s[1..];
      if s[0] == x then rest else [s[0]] + rest
  }

  lemma {:induction false} DistinctAppend<T(!new)>(s: seq<T>, t: seq<T>)
    requires Distinct(s) && Distinct(t)
    requires forall x :: x in s ==> x !in t
    ensures Distinct(s + t)
  {
    forall i, j | 0 <= i < j < |s + t| ensures (s + t)[i] != (s + t)[j] {
      if i < |s| <= j {
        assert s[i] in s && t[j - |s|] in t;
      }
    }
  }

  /** A set contained in another is no larger. */
  lemma {:induction false} SubsetSize<T>(a: set<T>, b: set<T>)
    requires a <= b
    ensures |a| <= |b|
    decreases |a|
  {
    if a != {} {
      var x :| x in a;
      SubsetSize(a - {x}, b - {x});
    }
  }

  /** A sequence has no more elements than places, and as many iff none occurs twice. */
  lemma {:induction false} ElementCount<T(!new)>(s: seq<T>, elements: set<T>)
    requires forall x :: x in elements <==> x in s
    ensures |elements| <= |s| && (|elements| == |s| <==> Distinct(s))
  {
    if s == [] {
      assert elements == {};
    } else {
      var front, last := s[..|s| - 1], s[|s| - 1];
      assert s == front + [last];
      if last in front {
        ElementCount(front, elements);
      } else {
        ElementCount(front, elements - {last});
        assert Distinct(front) ==> Distinct(s);
      }
    }
  }

  // ---------- Fresh names ----------

  lemma {:induction false} LongerThanAll(used: set<string>) returns (n: nat)
    ensures forall c :: c in used ==> |c| < n
    decreases |used|
  {
    if used == {} {
      n := 0;
    } else {
      var c :| c in used;
      var m := LongerThanAll(used - {c});
      n := if |c| < m then m else |c| + 1;
    }
  }

  lemma FreshString(used: set<string>) returns (c: string)
    ensures c !in used
  {
    var n := LongerThanAll(used);
    c := seq(n, i => 'x');
  }

  // ---------- Filtering and collecting ----------

  function Filter<T>(s: seq<T>, p: T -> bool): seq<T> {
    if s == [] then [] else Filter(s[..|s| - 1], p) + if p(s[|s| - 1]) then [s[|s| - 1]] else []
  }

  lemma {:induction false} FilterConcat<T>(a: seq<T>, b: seq<T>, p: T -> bool)
    ensures Filter(a + b, p) == Filter(a, p) + Filter(b, p)
  {
    if b == [] {
      assert a + b == a;
    } else {
      assert (a + b)[..|a + b| - 1] == a + b[..|b| - 1];
      FilterConcat(a, b[..|b| - 1], p);
    }
  }

  lemma {:induction false} FilterNone<T>(s: seq<T>, p: T -> bool)
    requires forall x <- s :: !p(x)
    ensures Filter(s, p) == []
  {
    if s != [] { FilterNone(s[..|s| - 1], p); }
  }

  lemma {:induction false} FilterAll<T>(s: seq<T>, p: T -> bool)
    requires forall x <- s :: p(x)
    ensures Filter(s, p) == s
  {
    if s != [] {
      FilterAll(s[..|s| - 1], p);
      assert s == s[..|s| - 1] + [s[|s| - 1]];
    }
  }

  function Flatten<T>(parts: seq<seq<T>>): seq<T> {
    if parts == [] then [] else Flatten(parts[..|parts| - 1]) + parts[|parts| - 1]
  }

  lemma AppendNext<T>(start: seq<T>, parts: seq<seq<T>>, i: nat)
    requires i < |parts|
    ensures start + Flatten(parts[..i + 1]) == start + Flatten(parts[..i]) + parts[i]
  {
    assert parts[..i + 1][..i] == parts[..i];
  }

  /** Nothing passes the filter but elements of part j. */
  lemma {:induction false} FilterFlatten<T>(parts: seq<seq<T>>, p: T -> bool, j: nat)
    requires forall i :: 0 <= i < |parts| && i != j ==> Filter(parts[i], p) == []
    ensures Filter(Flatten(parts), p) == if j < |parts| then Filter(parts[j], p) else []
  {
    if parts != [] {
      var n := |parts| - 1;
      FilterFlatten(parts[..n], p, j);
      FilterConcat(Flatten(parts[..n]), parts[n], p);
    }
  }

  /** All parts but one are empty. */
  lemma {:induction false} FlattenOne<T>(parts: seq<seq<T>>, j: nat)
    requires forall i :: 0 <= i < |parts| && i != j ==> parts[i] == []
    ensures Flatten(parts) == if j < |parts| then parts[j] else []
  {
    if parts != [] { FlattenOne(parts[..|parts| - 1], j); }
  }

  /** What holds at the start, and each part extends, holds after any number of parts. */
  lemma {:induction false} FlattenAlong<S, T>(holds: (S, seq<T>) -> bool, states: seq<S>, parts: seq<seq<T>>, k: nat)
    requires |states| == |parts| + 1 && k <= |parts| && holds(states[0], [])
    requires forall i, t {:trigger holds(states[i], t), parts[i]} ::
               0 <= i < |parts| && holds(states[i], t) ==> holds(states[i + 1], t + parts[i])
    ensures holds(states[k], Flatten(parts[..k]))
    decreases k
  {
    if k > 0 {
      FlattenAlong(holds, states, parts, k - 1);
      assert parts[..k][..k - 1] == parts[..k - 1];
      assert holds(states[k - 1], Flatten(parts[..k - 1])) && parts[k - 1] == parts[..k][k - 1];
    }
  }
}
