/** `String.prototype.trim`. */
module Trimming {
  /** The characters `String.prototype.trim` removes. */
  predicate IsSpace(c: char) {
    var n := c as int;
    9 <= n <= 13 || n == 0x20 || n == 0xA0 || n == 0x1680 || 0x2000 <= n <= 0x200A
    || n == 0x2028 || n == 0x2029 || n == 0x202F || n == 0x205F || n == 0x3000 || n == 0xFEFF
  }

  function TrimStart(s: string): (r: string)
    ensures r == "" || !IsSpace(r[0])
    ensures s != "" && !IsSpace(s[0]) ==> r == s
  {
    if s == "" || !IsSpace(s[0]) then s else TrimStart(s[1..])
  }

  function TrimEnd(s: string): (r: string)
    ensures r <= s
    ensures r == "" || !IsSpace(r[|r| - 1])
    ensures s != "" && !IsSpace(s[|s| - 1]) ==> r == s
  {
    if s == "" || !IsSpace(s[|s| - 1]) then s else TrimEnd(s[..|s| - 1])
  }

  function Trim(s: string): string {
    TrimEnd(TrimStart(s))
  }

  /** Neither empty nor bounded by spaces: what a non-blank string is after trimming. */
  predicate Trimmed(s: string) {
    s != "" && !IsSpace(s[0]) && !IsSpace(s[|s| - 1])
  }

  lemma TrimResult(s: string)
    ensures Trim(s) == "" || Trimmed(Trim(s))
    ensures Trimmed(s) ==> Trim(s) == s
  {
  }

  predicate Blank(s: string) {
    forall c <- s :: IsSpace(c)
  }

  /** Trimming takes spaces off both ends, and nothing else. */
  lemma TrimCuts(s: string) returns (before: string, after: string)
    ensures s == before + Trim(s) + after && Blank(before) && Blank(after)
    ensures Trim(s) == "" <==> Blank(s)
  {
    before := StartCut(s);
    after := EndCut(TrimStart(s));
  }

  lemma {:induction false} StartCut(s: string) returns (before: string)
    ensures s == before + TrimStart(s) && Blank(before)
  {
    if s == "" || !IsSpace(s[0]) {
      before := "";
    } else {
      before := StartCut(s[1..]);
      before := [s[0]] + before;
    }
  }

  lemma {:induction false} EndCut(s: string) returns (after: string)
    ensures s == TrimEnd(s) + after && Blank(after)
  {
    if s == "" || !IsSpace(s[|s| - 1]) {
      after := "";
    } else {
      after := EndCut(s[..|s| - 1]);
      after := after + [s[|s| - 1]];
    }
  }
}
