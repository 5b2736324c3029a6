/** The identifiers a trunk has in Asterisk's realtime tables, derived from its uuid. */
module TrunkIds {
  import opened Prelude
  import opened Trimming

  const PJSIP_ID_MAX_LENGTH := 40

  // ---------- Derived ids ----------

  predicate IsHex(c: char) {
    '0' <= c <= '9' || 'a' <= c <= 'f' || 'A' <= c <= 'F'
  }

  /** 8-4-4-4-12 hexadecimal digits. */
  predicate IsUuid(u: string) {
    |u| == 36 && forall i :: 0 <= i < 36 ==> if i in {8, 13, 18, 23} then u[i] == '-' else IsHex(u[i])
  }

  /** `replace(/-/g, '')` */
  function Compact(s: string): (r: string)
    ensures (forall i :: 0 <= i < |s| ==> s[i] != '-') ==> r == s
  {
    if s == "" then "" else (if s[0] == '-' then "" else [s[0]]) + Compact(s[1..])
  }

  /** `slice(0, 40)` */
  function Slice40(s: string): string {
    if |s| > PJSIP_ID_MAX_LENGTH then s[..PJSIP_ID_MAX_LENGTH] else s
  }

  function Decimal(n: nat): (r: string)
    ensures r != "" && forall i :: 0 <= i < |r| ==> '0' <= r[i] <= '9'
  {
    (if n < 10 then "" else Decimal(n / 10)) + [Digit(n % 10)]
  }

  function Digit(d: nat): (c: char)
    requires d < 10
    ensures '0' <= c <= '9'
  {
    ('0' as int + d) as char
  }

  /** `String(index).padStart(2, '0')` */
  function Suffix(index: nat): string {
    if index < 10 then "0" + Decimal(index) else Decimal(index)
  }

  function TrunkEndpointId(uuid: string): string { Slice40("trunk-" + Compact(uuid)) }

  function TrunkAuthId(uuid: string): string { Slice40("ta" + Compact(uuid)) }

  function TrunkIdentifyId(uuid: string, index: nat): string { Slice40("i" + Compact(uuid) + Suffix(index)) }

  // ---------- Injectivity and length ----------

  lemma {:induction false} CompactConcat(a: string, b: string)
    ensures Compact(a + b) == Compact(a) + Compact(b)
  {
    if a == "" {
      assert a + b == b;
    } else {
      assert (a + b)[1..] == a[1..] + b;
      CompactConcat(a[1..], b);
    }
  }

  /** A dash-free segment from a up to a dash at b. */
  lemma CompactSegment(s: string, a: nat, b: nat)
    requires a <= b < |s| && s[b] == '-' && forall i :: a <= i < b ==> s[i] != '-'
    ensures Compact(s[a..]) == s[a..b] + Compact(s[b + 1..])
  {
    var segment, rest := s[a..b], s[b..];
    assert s[a..] == segment + rest;
    CompactConcat(segment, rest);
    assert rest[0] == '-' && rest[1..] == s[b + 1..];
    assert Compact(rest) == Compact(s[b + 1..]);
    assert forall i :: 0 <= i < |segment| ==> segment[i] == s[a + i];
  }

  function Segments(u: string): string
    requires |u| == 36
  {
    u[0..8] + (u[9..13] + (u[14..18] + (u[19..23] + u[24..])))
  }

  lemma CompactLastSegments(u: string)
    requires IsUuid(u)
    ensures Compact(u[14..]) == u[14..18] + (u[19..23] + u[24..])
  {
    CompactSegment(u, 14, 18);
    CompactSegment(u, 19, 23);
    var last := u[24..];
    assert forall i :: 0 <= i < |last| ==> last[i] == u[i + 24];
  }

  lemma CompactIsSegments(u: string)
    requires IsUuid(u)
    ensures Compact(u) == Segments(u)
  {
    CompactLastSegments(u);
    assert u[0..] == u;
    CompactSegment(u, 0, 8);
    CompactSegment(u, 9, 13);
  }

  lemma CompactOfUuid(u: string)
    requires IsUuid(u)
    ensures |Compact(u)| == 32 && forall i :: 0 <= i < 32 ==> IsHex(Compact(u)[i])
  {
    CompactIsSegments(u);
  }

  lemma CompactInjective(u: string, v: string)
    requires IsUuid(u) && IsUuid(v) && Compact(u) == Compact(v)
    ensures u == v
  {
    CompactIsSegments(u);
    CompactIsSegments(v);
    SegmentSlices(u);
    SegmentSlices(v);
    SegmentsDecide(u, v);
  }

  lemma SegmentSlices(u: string)
    requires IsUuid(u)
    ensures var c := Segments(u);
            |c| == 32 && c[..8] == u[..8] && c[8..12] == u[9..13] && c[12..16] == u[14..18]
            && c[16..20] == u[19..23] && c[20..] == u[24..]
  {
  }

  lemma SegmentsDecide(u: string, v: string)
    requires IsUuid(u) && IsUuid(v)
    requires u[..8] == v[..8] && u[9..13] == v[9..13] && u[14..18] == v[14..18]
    requires u[19..23] == v[19..23] && u[24..] == v[24..]
    ensures u == v
  {
    forall i | 0 <= i < 36 ensures u[i] == v[i] {
      if i < 8 { assert u[i] == u[..8][i] && v[i] == v[..8][i]; }
      else if 9 <= i < 13 { assert u[i] == u[9..13][i - 9] && v[i] == v[9..13][i - 9]; }
      else if 14 <= i < 18 { assert u[i] == u[14..18][i - 14] && v[i] == v[14..18][i - 14]; }
      else if 19 <= i < 23 { assert u[i] == u[19..23][i - 19] && v[i] == v[19..23][i - 19]; }
      else if 24 <= i { assert u[i] == u[24..][i - 24] && v[i] == v[24..][i - 24]; }
    }
  }

  /** The number a digit string stands for. */
  function Parse(s: string): int {
    if s == "" then 0 else 10 * Parse(s[..|s| - 1]) + (s[|s| - 1] as int - '0' as int)
  }

  /** No index is lost in its suffix. */
  lemma {:induction false} ParseDecimal(n: nat)
    ensures Parse(Decimal(n)) == n
  {
    var d := Decimal(n);
    if n >= 10 {
      ParseDecimal(n / 10);
      assert d[..|d| - 1] == Decimal(n / 10);
    } else {
      assert d[..|d| - 1] == "";
    }
  }

  lemma SuffixInjective(m: nat, n: nat)
    requires Suffix(m) == Suffix(n)
    ensures m == n
  {
    ParseSuffix(m);
    ParseSuffix(n);
  }

  lemma ParseSuffix(n: nat)
    ensures Parse(Suffix(n)) == n
  {
    ParseDecimal(n);
    if n < 10 {
      var d := Decimal(n);
      assert Suffix(n)[..1] == "0" && "0"[..0] == "" && d[..0] == "";
      assert Parse("0") == 0;
    }
  }

  function Pow10(k: nat): nat { if k == 0 then 1 else 10 * Pow10(k - 1) }

  /** An index has at most k digits iff it is below 10^k. */
  lemma {:induction false} DecimalLength(n: nat, k: nat)
    requires k >= 1
    ensures |Decimal(n)| <= k <==> n < Pow10(k)
  {
    assert Pow10(k) == 10 * Pow10(k - 1);
    if k == 1 {
      assert Pow10(0) == 1;
    } else if n >= 10 {
      DecimalLength(n / 10, k - 1);
      assert n / 10 < Pow10(k - 1) <==> n < 10 * Pow10(k - 1);
    } else {
      assert Pow10(k - 1) >= 1 by { PowPositive(k - 1); }
    }
  }

  lemma {:induction false} PowPositive(k: nat)
    ensures Pow10(k) >= 1
  {
    if k > 0 { PowPositive(k - 1); }
  }

  /** Up to this many matches of one trunk get distinct identify ids. */
  const MAX_IDENTIFIES := 10_000_000

  lemma TenMillion()
    ensures Pow10(7) == MAX_IDENTIFIES
  {
    assert Pow10(1) == 10;
    assert Pow10(2) == 100;
    assert Pow10(3) == 1000;
    assert Pow10(4) == 10000;
    assert Pow10(5) == 100000;
    assert Pow10(6) == 1000000;
  }

  /** All derived ids fit Asterisk's 40-character columns. */
  lemma DerivedIdsFit(u: string, index: nat)
    requires IsUuid(u)
    ensures |TrunkEndpointId(u)| == 38 && |TrunkAuthId(u)| == 34 && |TrunkIdentifyId(u, index)| <= PJSIP_ID_MAX_LENGTH
    ensures Trimmed(TrunkEndpointId(u))
    ensures IsHex(TrunkAuthId(u)[33])
  {
    CompactOfUuid(u);
  }

  lemma EndpointAndAuthIdsInjective(u: string, v: string)
    requires IsUuid(u) && IsUuid(v)
    requires TrunkEndpointId(u) == TrunkEndpointId(v) || TrunkAuthId(u) == TrunkAuthId(v)
    ensures u == v
  {
    CompactOfUuid(u);
    CompactOfUuid(v);
    assert TrunkEndpointId(u)[6..] == Compact(u) && TrunkEndpointId(v)[6..] == Compact(v);
    assert TrunkAuthId(u)[2..] == Compact(u) && TrunkAuthId(v)[2..] == Compact(v);
    CompactInjective(u, v);
  }

  /** Below ten million an identify id is not truncated. */
  lemma IdentifyIdWhole(u: string, index: nat)
    requires IsUuid(u)
    ensures index < MAX_IDENTIFIES ==> TrunkIdentifyId(u, index) == "i" + Compact(u) + Suffix(index)
    ensures |TrunkIdentifyId(u, index)| >= 33 && TrunkIdentifyId(u, index)[1..33] == Compact(u)
  {
    CompactOfUuid(u);
    TenMillion();
    DecimalLength(index, 7);
  }

  /** Two identify rows share an id only if they are the same match of the same trunk. */
  lemma IdentifyIdsInjective(u: string, i: nat, v: string, j: nat)
    requires IsUuid(u) && IsUuid(v) && TrunkIdentifyId(u, i) == TrunkIdentifyId(v, j)
    ensures u == v
    ensures i < MAX_IDENTIFIES && j < MAX_IDENTIFIES ==> i == j
  {
    IdentifyIdWhole(u, i);
    IdentifyIdWhole(v, j);
    CompactInjective(u, v);
    if i < MAX_IDENTIFIES && j < MAX_IDENTIFIES {
      CompactOfUuid(u);
      assert ("i" + Compact(u) + Suffix(i))[33..] == Suffix(i) && ("i" + Compact(v) + Suffix(j))[33..] == Suffix(j);
      SuffixInjective(i, j);
    }
  }

  /** The last digit of the eight-digit index 10000000 is cut off: it collides with index 1000000. */
  lemma IdentifyIdCollision(u: string)
    requires IsUuid(u)
    ensures TrunkIdentifyId(u, 10_000_000) == TrunkIdentifyId(u, 1_000_000)
  {
    CompactOfUuid(u);
    TenMillion();
    DecimalLength(1_000_000, 7);
    DecimalLength(1_000_000, 6);
    assert Pow10(6) == 1_000_000;
    assert Decimal(10_000_000) == Decimal(1_000_000) + "0";
    LastDigitCutOff("i" + Compact(u), Decimal(1_000_000));
  }

  lemma LastDigitCutOff(prefix: string, digits: string)
    requires |prefix| == 33 && |digits| == 7
    ensures Slice40(prefix + (digits + "0")) == Slice40(prefix + digits)
  {
    assert (prefix + (digits + "0"))[..40] == prefix + digits;
  }

  /** The n identify ids of a trunk are pairwise distinct iff it has at most ten million matches. */
  lemma IdentifyIdsDistinctIff(u: string, n: nat)
    requires IsUuid(u)
    ensures (forall i: nat, j: nat :: i < j < n ==> TrunkIdentifyId(u, i) != TrunkIdentifyId(u, j))
            <==> n <= MAX_IDENTIFIES
  {
    if n <= MAX_IDENTIFIES {
      forall i: nat, j: nat | i < j < n ensures TrunkIdentifyId(u, i) != TrunkIdentifyId(u, j) {
        if TrunkIdentifyId(u, i) == TrunkIdentifyId(u, j) { IdentifyIdsInjective(u, i, u, j); }
      }
    } else {
      IdentifyIdCollision(u);
    }
  }
}
