/** Slugs: the canonical form of a market question, and the search for a free one. */
module Slugs {
  import opened Machine
  import opened Text
  import opened Decimal

  predicate IsAlnum(c: char) {
    'a' <= c <= 'z' || 'A' <= c <= 'Z' || '0' <= c <= '9'
  }

  predicate IsSlugLetter(c: char) {
    'a' <= c <= 'z' || '0' <= c <= '9'
  }

  // ---------------------------------------------------------------- lower-casing

  /** What the slug needs of the Unicode lower-case table: it fixes what is already a slug
      character, leaves whitespace and no ASCII capital behind. */
  ghost predicate LowercaseTable(lower: char -> string) {
    && (forall c: char :: IsSlugLetter(c) || c == '-' ==> lower(c) == [c])
    && (forall c: char :: IsWhitespace(c) ==> lower(c) == [c])
    && (forall c: char, i :: 0 <= i < |lower(c)| && IsAlnum(lower(c)[i]) ==> IsSlugLetter(lower(c)[i]))
  }

  function Lowercase(lower: char -> string, s: string): string {
    if s == "" then "" else lower(s[0]) + Lowercase(lower, s[1..])
  }

  lemma {:induction false} LowercaseConcat(lower: char -> string, a: string, b: string)
    ensures Lowercase(lower, a + b) == Lowercase(lower, a) + Lowercase(lower, b)
  {
    if a == "" {
      assert a + b == b;
    } else {
      assert (a + b)[1..] == a[1..] + b;
      LowercaseConcat(lower, a[1..], b);
    }
  }

  lemma {:induction false} LowercaseFixed(lower: char -> string, s: string)
    requires forall i :: 0 <= i < |s| ==> lower(s[i]) == [s[i]]
    ensures Lowercase(lower, s) == s
  {
    if s != "" {
      LowercaseFixed(lower, s[1..]);
    }
  }

  lemma {:induction false} LowercaseLetters(lower: char -> string, s: string)
    requires LowercaseTable(lower)
    ensures LowAlnum(Lowercase(lower, s))
  {
    if s != "" {
      LowercaseLetters(lower, s[1..]);
    }
  }

  // ---------------------------------------------------------------- the reference form

  /** The length of the alphanumeric run that `s` starts with. */
  function RunLength(s: string): (n: nat)
    ensures n <= |s|
    ensures forall i :: 0 <= i < n ==> IsAlnum(s[i])
    ensures n < |s| ==> !IsAlnum(s[n])
  {
    if s == "" || !IsAlnum(s[0]) then 0 else 1 + RunLength(s[1..])
  }

  /** The maximal alphanumeric runs of `s`, in order. */
  function AlnumRuns(s: string): seq<string> {
    if s == "" then []
    else if !IsAlnum(s[0]) then AlnumRuns(s[1..])
    else
      var n := RunLength(s);
      [s[..n]] + AlnumRuns(s[n..])
  }

  function JoinHyphen(words: seq<string>): string {
    if words == [] then ""
    else if |words| == 1 then words[0]
    else words[0] + "-" + JoinHyphen(words[1..])
  }

  function Canonical(s: string): string {
    if AlnumRuns(s) == [] then "event" else JoinHyphen(AlnumRuns(s))
  }

  /** The slug a question gets, in terms of its lower-cased text alone. */
  function SlugOf(lower: char -> string, question: string): string {
    Canonical(Lowercase(lower, question))
  }

  // ---------------------------------------------------------------- the loop

  /** What the loop appends while reading `s`, when its flag starts as `flag`. */
  function Emitted(flag: bool, s: string): string
    decreases s
  {
    if s == "" then ""
    else if IsAlnum(s[0]) then [s[0]] + Emitted(false, s[1..])
    else if flag then Emitted(true, s[1..])
    else "-" + Emitted(true, s[1..])
  }

  function TrimHyphensStart(s: string): string {
    if s != "" && s[0] == '-' then TrimHyphensStart(s[1..]) else s
  }

  function TrimHyphensEnd(s: string): string {
    if s != "" && s[|s| - 1] == '-' then TrimHyphensEnd(s[..|s| - 1]) else s
  }

  function TrimHyphens(s: string): string {
    TrimHyphensEnd(TrimHyphensStart(s))
  }

  lemma {:induction false} EmittedRun(s: string, n: nat)
    requires n == RunLength(s) > 0
    ensures Emitted(true, s) == Emitted(false, s) == s[..n] + Emitted(false, s[n..])
  {
    if n == 1 {
      assert s[..1] == [s[0]];
    } else {
      EmittedRun(s[1..], n - 1);
      assert s[1..][n - 1..] == s[n..] && s[..n] == [s[0]] + s[1..][..n - 1];
    }
  }

  lemma {:induction false} TrimEndBehind(a: string, b: string)
    ensures TrimHyphensEnd(b) != "" ==> TrimHyphensEnd(a + b) == a + TrimHyphensEnd(b)
    ensures TrimHyphensEnd(b) == "" ==> TrimHyphensEnd(a + b) == TrimHyphensEnd(a)
  {
    if b == "" {
      assert a + b == a;
    } else if b[|b| - 1] == '-' {
      assert (a + b)[..|a + b| - 1] == a + b[..|b| - 1];
      TrimEndBehind(a, b[..|b| - 1]);
    }
  }

  /** Without its trailing hyphen, what the loop emits is the runs joined by hyphens. */
  lemma {:induction false} EmittedJoins(s: string)
    ensures TrimHyphensEnd(Emitted(true, s)) == JoinHyphen(AlnumRuns(s))
    ensures JoinHyphen(AlnumRuns(s)) == "" <==> AlnumRuns(s) == []
    decreases |s|
  {
    if s == "" {
    } else if !IsAlnum(s[0]) {
      EmittedJoins(s[1..]);
    } else {
      var n := RunLength(s);
      EmittedRun(s, n);
      EmittedJoins(s[n..]);
      EmittedSeparator(s[..n], s[n..]);
      assert AlnumRuns(s)[1..] == AlnumRuns(s[n..]);
    }
  }

  /** A run that `t` does not continue keeps one hyphen, if another run follows. */
  lemma EmittedSeparator(run: string, t: string)
    requires run != "" && run[|run| - 1] != '-' && (t != "" ==> !IsAlnum(t[0]))
    ensures var rest := TrimHyphensEnd(Emitted(true, t));
            TrimHyphensEnd(run + Emitted(false, t)) == if rest == "" then run else run + "-" + rest
  {
    if t == "" {
      assert run + "" == run;
    } else {
      var rest := Emitted(true, t);
      assert Emitted(false, t) == "-" + rest;
      assert run + ("-" + rest) == (run + "-") + rest;
      TrimEndBehind(run + "-", rest);
      TrimEndBehind(run, "-");
      assert "-"[..0] == "";
    }
  }

  lemma EmittedTrimmed(s: string)
    ensures TrimHyphens(Emitted(false, s)) == JoinHyphen(AlnumRuns(s))
  {
    EmittedJoins(s);
    EmittedStart(s);
  }

  lemma {:induction false} EmittedStart(s: string)
    ensures Emitted(true, s) != "" ==> Emitted(true, s)[0] != '-'
    ensures TrimHyphensStart(Emitted(false, s)) == Emitted(true, s)
  {
    if s != "" {
      EmittedStart(s[1..]);
      if !IsAlnum(s[0]) {
        assert ("-" + Emitted(true, s[1..]))[1..] == Emitted(true, s[1..]);
        assert TrimHyphensStart(Emitted(true, s[1..])) == Emitted(true, s[1..]);
      }
    }
  }

  /** One turn of the loop: reading `text[i]` moves output from what is left to the slug. */
  lemma EmittedStep(slug: string, flag: bool, text: string, i: nat)
    requires i < |text|
    ensures var read := if IsAlnum(text[i]) then [text[i]] else if flag then "" else "-";
            slug + Emitted(flag, text[i..]) == (slug + read) + Emitted(!IsAlnum(text[i]), text[i + 1..])
  {
  }

  lemma EmittedIsSlug(lower: char -> string, question: string)
    requires LowercaseTable(lower)
    ensures var slug := TrimHyphens(Emitted(false, Lowercase(lower, Trim(question))));
            SlugOf(lower, question) == if slug == "" then "event" else slug
  {
    var text := Lowercase(lower, Trim(question));
    EmittedTrimmed(text);
    EmittedJoins(text);
    TrimIrrelevant(lower, question);
  }

  method SlugFromQuestion(lower: char -> string, question: string) returns (slug: string)
    requires LowercaseTable(lower)
    ensures slug == SlugOf(lower, question)
  {
    var text := Lowercase(lower, Trim(question));
    slug := "";
    var lastHyphen := false;
    for i := 0 to |text|
      invariant slug + Emitted(lastHyphen, text[i..]) == Emitted(false, text)
    {
      EmittedStep(slug, lastHyphen, text, i);
      var c := text[i];
      if IsAlnum(c) {
        slug := slug + [c];
        lastHyphen := false;
      } else if !lastHyphen {
        slug := slug + "-";
        lastHyphen := true;
      } else {
        assert slug + "" == slug;
      }
    }
    assert text[|text|..] == "" && slug + "" == slug;
    EmittedIsSlug(lower, question);
    slug := TrimHyphens(slug);
    if slug == "" {
      return "event";
    }
  }

  // ---------------------------------------------------------------- what the form guarantees

  predicate Separators(s: string) {
    forall i :: 0 <= i < |s| ==> !IsAlnum(s[i])
  }

  lemma {:induction false} AlnumRunsSkip(a: string, s: string, b: string)
    requires Separators(a) && Separators(b)
    ensures AlnumRuns(a + s + b) == AlnumRuns(s)
    decreases |a| + |s| + |b|
  {
    var t := a + s + b;
    if a != "" {
      assert t[1..] == a[1..] + s + b;
      AlnumRunsSkip(a[1..], s, b);
    } else if s == "" {
      if b != "" {
        assert t == b && b[1..] == "" + "" + b[1..];
        AlnumRunsSkip("", "", b[1..]);
      }
    } else if !IsAlnum(s[0]) {
      assert t[1..] == "" + s[1..] + b;
      AlnumRunsSkip("", s[1..], b);
    } else {
      var n := RunLength(s);
      RunLengthIs(t, n);
      assert t[..n] == s[..n] && t[n..] == "" + s[n..] + b;
      AlnumRunsSkip("", s[n..], b);
    }
  }

  lemma {:induction false} RunLengthIs(s: string, n: nat)
    requires n <= |s| && (forall i :: 0 <= i < n ==> IsAlnum(s[i])) && (n < |s| ==> !IsAlnum(s[n]))
    ensures RunLength(s) == n
  {
  }

  /** The initial `trim` of the question never changes its slug. */
  lemma TrimIrrelevant(lower: char -> string, question: string)
    requires LowercaseTable(lower)
    ensures SlugOf(lower, Trim(question)) == SlugOf(lower, question)
  {
    var before, after := TrimParts(question);
    LowercaseConcat(lower, before + Trim(question), after);
    LowercaseConcat(lower, before, Trim(question));
    LowercaseFixed(lower, before);
    LowercaseFixed(lower, after);
    AlnumRunsSkip(before, Lowercase(lower, Trim(question)), after);
  }

  predicate LowAlnum(s: string) {
    forall i :: 0 <= i < |s| && IsAlnum(s[i]) ==> IsSlugLetter(s[i])
  }

  /** A well-formed slug: lower-case words separated by single hyphens. */
  predicate IsSlug(s: string) {
    && s != "" && s[0] != '-' && s[|s| - 1] != '-'
    && (forall i :: 0 <= i < |s| ==> IsSlugLetter(s[i]) || s[i] == '-')
    && (forall i :: 0 < i < |s| ==> s[i - 1] != '-' || s[i] != '-')
  }

  lemma {:induction false} JoinIsSlug(s: string)
    requires LowAlnum(s) && AlnumRuns(s) != []
    ensures IsSlug(JoinHyphen(AlnumRuns(s)))
    decreases |s|
  {
    if !IsAlnum(s[0]) {
      JoinIsSlug(s[1..]);
    } else {
      var n := RunLength(s);
      assert AlnumRuns(s) == [s[..n]] + AlnumRuns(s[n..]);
      if AlnumRuns(s[n..]) != [] {
        JoinIsSlug(s[n..]);
        assert AlnumRuns(s)[1..] == AlnumRuns(s[n..]);
        SlugJoined(s[..n], JoinHyphen(AlnumRuns(s[n..])));
      }
    }
  }

  lemma SlugJoined(a: string, b: string)
    requires a != "" && (forall i :: 0 <= i < |a| ==> IsSlugLetter(a[i])) && IsSlug(b)
    ensures IsSlug(a + "-" + b)
  {
  }

  lemma {:induction false} SlugIsJoined(s: string)
    requires IsSlug(s)
    ensures AlnumRuns(s) != [] && JoinHyphen(AlnumRuns(s)) == s
    decreases |s|
  {
    var n := RunLength(s);
    assert n > 0;
    if n < |s| {
      var t := s[n + 1..];
      assert s[n] == '-' && s[n..][1..] == t && s == s[..n] + "-" + t;
      assert IsSlug(t) by {
        forall i | 0 < i < |t| ensures t[i - 1] != '-' || t[i] != '-' {
          assert t[i] == s[i + n + 1] && t[i - 1] == s[i + n];
        }
        assert t[0] == s[n + 1] && s[n + 1 - 1] == '-';
      }
      SlugIsJoined(t);
      assert AlnumRuns(s[n..]) == AlnumRuns(t) && AlnumRuns(s) == [s[..n]] + AlnumRuns(t);
      assert AlnumRuns(s)[1..] == AlnumRuns(t);
    } else {
      assert AlnumRuns(s) == [s[..n]] + AlnumRuns("") && s[..n] == s;
    }
  }

  /** Every question gets a well-formed slug, and the well-formed slugs are exactly the
      texts that are their own slug; so taking the slug twice changes nothing. */
  lemma SlugForm(lower: char -> string, s: string)
    requires LowercaseTable(lower)
    ensures IsSlug(SlugOf(lower, s))
    ensures SlugOf(lower, s) == s <==> IsSlug(s)
  {
    LowercaseLetters(lower, s);
    if AlnumRuns(Lowercase(lower, s)) != [] {
      JoinIsSlug(Lowercase(lower, s));
    }
    if IsSlug(s) {
      LowercaseFixed(lower, s);
      SlugIsJoined(s);
    }
  }

  lemma SlugIdempotent(lower: char -> string, question: string)
    requires LowercaseTable(lower)
    ensures SlugOf(lower, SlugOf(lower, question)) == SlugOf(lower, question)
  {
    SlugForm(lower, question);
    SlugForm(lower, SlugOf(lower, question));
  }

  /** The letters and digits of a text, in order. */
  function Letters(s: string): string {
    if s == "" then "" else Letter(s[0]) + Letters(s[1..])
  }

  function Letter(c: char): string {
    if IsAlnum(c) then [c] else ""
  }

  lemma {:induction false} LettersConcat(a: string, b: string)
    ensures Letters(a + b) == Letters(a) + Letters(b)
  {
    if a == "" {
      assert a + b == b;
    } else {
      hide Letter;
      assert (a + b)[0] == a[0] && (a + b)[1..] == a[1..] + b;
      LettersConcat(a[1..], b);
      assert Letter(a[0]) + (Letters(a[1..]) + Letters(b)) == (Letter(a[0]) + Letters(a[1..])) + Letters(b);
    }
  }

  lemma LettersJoined(a: string, b: string)
    ensures Letters(a + "-" + b) == Letters(a) + Letters(b)
  {
    assert Letters("-") == "" by { assert Letter('-') == ""; }
    hide Letters;
    LettersConcat(a + "-", b);
    LettersConcat(a, "-");
  }

  lemma LettersSkip(s: string)
    requires s != "" && !IsAlnum(s[0])
    ensures Letters(s) == Letters(s[1..]) && AlnumRuns(s) == AlnumRuns(s[1..])
  {
  }

  lemma RunsFrom(s: string, n: nat)
    requires n == RunLength(s) > 0
    ensures AlnumRuns(s) == [s[..n]] + AlnumRuns(s[n..]) && Letters(s) == Letters(s[..n]) + Letters(s[n..])
  {
    assert s == s[..n] + s[n..];
    LettersConcat(s[..n], s[n..]);
    hide Letters;
  }

  lemma {:induction false} JoinKeepsLetters(s: string)
    ensures Letters(JoinHyphen(AlnumRuns(s))) == Letters(s)
    decreases |s|
  {
    if s == "" {
      return;
    }
    hide Letters, AlnumRuns;
    if !IsAlnum(s[0]) {
      LettersSkip(s);
      JoinKeepsLetters(s[1..]);
    } else {
      var n := RunLength(s);
      var rest := AlnumRuns(s[n..]);
      RunsFrom(s, n);
      JoinKeepsLetters(s[n..]);
      assert ([s[..n]] + rest)[1..] == rest;
      if rest == [] {
        assert Letters("") == "";
      } else {
        LettersJoined(s[..n], JoinHyphen(rest));
      }
    }
  }

  lemma {:induction false} NoRuns(s: string)
    ensures AlnumRuns(s) == [] <==> Letters(s) == ""
  {
    if s != "" {
      NoRuns(s[1..]);
    }
  }

  /** The slug keeps every letter and digit of the lower-cased question, in order, and adds none;
      without any it is "event". */
  lemma SlugKeepsLetters(lower: char -> string, question: string)
    ensures var kept := Letters(Lowercase(lower, question));
            if kept == "" then SlugOf(lower, question) == "event" else Letters(SlugOf(lower, question)) == kept
  {
    JoinKeepsLetters(Lowercase(lower, question));
    NoRuns(Lowercase(lower, question));
  }

  // ---------------------------------------------------------------- allocation

  /** The i-th slug the search tries: base, base-2, base-3, ... */
  function Candidate(base: string, i: nat): string {
    if i == 0 then base else base + "-" + Digits(i + 1)
  }

  /** The candidates count from 2 on. */
  lemma CandidateShape(base: string, i: nat)
    ensures Candidate(base, 0) == base
    ensures i > 0 ==>
              var s := Candidate(base, i);
              && base + "-" <= s && AllDigits(s[|base| + 1..]) && Value(s[|base| + 1..]) == i + 1
  {
    DigitsRoundTrip(i + 1);
    hide Digits;
    assert i > 0 ==> Candidate(base, i)[|base| + 1..] == Digits(i + 1);
  }

  lemma CandidateInjective(base: string, i: nat, j: nat)
    ensures Candidate(base, i) == Candidate(base, j) <==> i == j
  {
    if Candidate(base, i) == Candidate(base, j) && i > 0 && j > 0 {
      assert Candidate(base, i)[|base| + 1..] == Digits(i + 1);
      assert Candidate(base, j)[|base| + 1..] == Digits(j + 1);
      DigitsInjective(i + 1, j + 1);
    }
  }

  ghost function FirstCandidates(base: string, n: nat): set<string> {
    set i | 0 <= i < n :: Candidate(base, i)
  }

  lemma FirstCandidatesNext(base: string, n: nat)
    ensures FirstCandidates(base, n + 1) == FirstCandidates(base, n) + {Candidate(base, n)}
    ensures Candidate(base, n) !in FirstCandidates(base, n)
  {
    forall i | 0 <= i < n ensures Candidate(base, i) != Candidate(base, n) {
      CandidateInjective(base, i, n);
    }
  }

  lemma {:induction false} CandidatesCount(base: string, n: nat)
    ensures |FirstCandidates(base, n)| == n
  {
    if n > 0 {
      CandidatesCount(base, n - 1);
      FirstCandidatesNext(base, n - 1);
    }
  }

  ghost function Elements(s: seq<string>): set<string> {
    set x | x in s
  }

  lemma {:induction false} ElementsBound(s: seq<string>)
    ensures |Elements(s)| <= |s|
  {
    if s != [] {
      ElementsBound(s[..|s| - 1]);
      assert s == s[..|s| - 1] + [s[|s| - 1]];
      assert Elements(s) == Elements(s[..|s| - 1]) + {s[|s| - 1]};
    }
  }

  lemma SubsetSize<T>(a: set<T>, b: set<T>)
    requires a <= b
    ensures |a| <= |b|
  {
    assert b == a + (b - a);
  }

  /** Pigeonhole: a list cannot hold more distinct candidates than it has entries. */
  lemma TakenBound(existing: seq<string>, base: string, n: nat)
    requires forall i :: 0 <= i < n ==> Candidate(base, i) in existing
    ensures n <= |existing|
  {
    CandidatesCount(base, n);
    ElementsBound(existing);
    SubsetSize(FirstCandidates(base, n), Elements(existing));
  }

  /** All candidates the 32-bit suffix can name before its increment overflows. */
  ghost predicate Exhausted(existing: seq<string>, base: string) {
    forall i :: 0 <= i < I32_MAX - 1 ==> Candidate(base, i) in existing
  }

  lemma ExhaustedIsLong(existing: seq<string>, base: string)
    requires Exhausted(existing, base)
    ensures |existing| >= I32_MAX - 1
  {
    TakenBound(existing, base, I32_MAX - 1);
  }

  /** `base` is free, or the first `base-k` that is; None is the suffix overflowing. */
  method AllocateUniqueSlug(lower: char -> string, existing: seq<string>, question: string)
    returns (slug: Option<string>, ghost tried: nat)
    requires LowercaseTable(lower)
    ensures slug.None? <==> Exhausted(existing, SlugOf(lower, question))
    ensures slug.Some? ==>
              && slug.value == Candidate(SlugOf(lower, question), tried)
              && slug.value !in existing
              && (forall i :: 0 <= i < tried ==> Candidate(SlugOf(lower, question), i) in existing)
              && tried <= |existing|
              && slug.value != ""
    ensures |existing| < I32_MAX - 1 ==> slug.Some?
  {
    var base := SlugFromQuestion(lower, question);
    var candidate := base;
    var suffix: int := 2;
    tried := 0;
    while candidate in existing
      invariant candidate == Candidate(base, tried) && suffix == tried + 2 <= I32_MAX
      invariant forall i :: 0 <= i < tried ==> Candidate(base, i) in existing
      decreases |existing| - tried
    {
      TakenBound(existing, base, tried + 1);
      candidate := base + "-" + Digits(suffix);
      if suffix == I32_MAX {
        if |existing| < I32_MAX - 1 {
          ExhaustedIsLong(existing, base);
        }
        return None, tried;
      }
      suffix := suffix + 1;
      tried := tried + 1;
    }
    if tried > 0 {
      TakenBound(existing, base, tried);
    }
    SlugForm(lower, question);
    slug := Some(candidate);
  }
}
