/** String helpers with the meaning the Rust standard library gives them. */
module Text {
  /** The Unicode White_Space property, which `char::is_whitespace` tests. */
  predicate IsWhitespace(c: char) {
    var n := c as int;
    || 0x9 <= n <= 0xD || 0x2000 <= n <= 0x200A
    || n == 0x20 || n == 0x85 || n == 0xA0 || n == 0x1680
    || n == 0x2028 || n == 0x2029 || n == 0x202F || n == 0x205F || n == 0x3000
  }

  predicate AllWhitespace(s: string) {
    forall i :: 0 <= i < |s| ==> IsWhitespace(s[i])
  }

  function TrimStart(s: string): string {
    if s != "" && IsWhitespace(s[0]) then TrimStart(s[1..]) else s
  }

  function TrimEnd(s: string): string {
    if s != "" && IsWhitespace(s[|s| - 1]) then TrimEnd(s[..|s| - 1]) else s
  }

  function Trim(s: string): string {
    TrimEnd(TrimStart(s))
  }

  lemma {:induction false} TrimStartCuts(s: string)
    ensures var t := TrimStart(s);
            && |t| <= |s| && t == s[|s| - |t|..] && AllWhitespace(s[..|s| - |t|])
            && (t != "" ==> !IsWhitespace(t[0]))
  {
    hide IsWhitespace;
    if s != "" && IsWhitespace(s[0]) {
      TrimStartCuts(s[1..]);
      var t := TrimStart(s[1..]);
      assert s[..|s| - |t|] == [s[0]] + s[1..][..|s| - 1 - |t|];
    }
  }

  lemma {:induction false} TrimEndCuts(s: string)
    ensures var t := TrimEnd(s);
            && t <= s && AllWhitespace(s[|t|..])
            && (t != "" ==> !IsWhitespace(t[|t| - 1]))
  {
    hide IsWhitespace;
    if s != "" && IsWhitespace(s[|s| - 1]) {
      TrimEndCuts(s[..|s| - 1]);
      var t := TrimEnd(s[..|s| - 1]);
      assert s[|t|..] == s[..|s| - 1][|t|..] + [s[|s| - 1]];
    }
  }

  /** Trimming cuts a whitespace margin off each side. */
  lemma TrimParts(s: string) returns (before: string, after: string)
    ensures s == before + Trim(s) + after
    ensures AllWhitespace(before) && AllWhitespace(after)
  {
    hide TrimStart, TrimEnd, AllWhitespace;
    TrimStartCuts(s);
    var t := TrimStart(s);
    TrimEndCuts(t);
    var u := TrimEnd(t);
    before, after := s[..|s| - |t|], t[|u|..];
    Reassemble(s, before, t, u, after);
  }

  lemma Reassemble(s: string, a: string, t: string, u: string, c: string)
    requires |t| <= |s| && a == s[..|s| - |t|] && t == s[|s| - |t|..]
    requires u <= t && c == t[|u|..]
    ensures s == a + u + c
  {
  }

  predicate Trimmed(s: string) {
    s != "" ==> !IsWhitespace(s[0]) && !IsWhitespace(s[|s| - 1])
  }

  lemma TrimFixed(s: string)
    ensures Trimmed(Trim(s))
    ensures Trimmed(s) ==> Trim(s) == s
  {
    hide IsWhitespace;
    TrimStartCuts(s);
    TrimEndCuts(TrimStart(s));
  }

  predicate EndsWith(s: string, suffix: string) {
    |suffix| <= |s| && s[|s| - |suffix|..] == suffix
  }

  function StripSuffix(s: string, suffix: string): string
    requires EndsWith(s, suffix)
  {
    s[..|s| - |suffix|]
  }

  predicate ColonFree(s: string) {
    ':' !in s
  }

  /** The part after the last colon of a colon-free tail is determined. */
  lemma ColonSplit(a: string, x: string, b: string, y: string)
    requires ColonFree(x) && ColonFree(y)
    requires a + ":" + x == b + ":" + y
    ensures a == b && x == y
  {
    var s := a + ":" + x;
    assert s[|a|] == ':' && s[|b|] == ':';
    assert forall i :: |a| < i < |s| ==> s[i] in x;
    assert forall i :: |b| < i < |s| ==> s[i] in y;
    assert a == s[..|a|] && x == s[|a| + 1..];
  }
}
