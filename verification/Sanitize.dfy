// Sanitising untrusted model output before it is stored.
module Sanitize {
  import opened Basics

  const MAX_TEXT_LEN: nat := 2000
  const MAX_SHORT_LEN: nat := 300
  const MAX_LIST_ITEMS: nat := 10

  /** Unicode category Cc. */
  predicate IsControl(c: char) { c as int < 32 || 127 <= c as int <= 159 }

  predicate Printable(c: char) { c == '\n' || c == '\t' || !IsControl(c) }

  function LowerChar(c: char): char { if 'A' <= c <= 'Z' then (c as int + 32) as char else c }

  function Lower(s: string): (t: string)
    ensures |t| == |s| && forall i :: 0 <= i < |s| ==> t[i] == LowerChar(s[i])
  {
    seq(|s|, i requires 0 <= i < |s| => LowerChar(s[i]))
  }

  predicate OccursAt(needle: string, s: string, k: int) {
    0 <= k && k + |needle| <= |s| && s[k..k + |needle|] == needle
  }

  predicate Contains(s: string, needle: string) { exists k :: 0 <= k <= |s| && OccursAt(needle, s, k) }

  predicate NotAngle(c: char) { c != '<' && c != '>' }

  function SanitizeText(input: string, maxLen: nat): string {
    var stripped := Filter(Printable, input);
    var cleaned := if Contains(Lower(stripped), "<script") then Filter(NotAngle, stripped) else stripped;
    cleaned[..Min(|cleaned|, maxLen)]
  }

  /** One of two spellings, character by character. */
  predicate SpellsAt(lower: string, upper: string, s: string, k: nat)
    requires |lower| == |upper| && k + |lower| <= |s|
  {
    forall i :: 0 <= i < |lower| ==> s[k + i] == lower[i] || s[k + i] == upper[i]
  }

  /** The opener of a script element, each letter in either case. */
  predicate HasScript(s: string) {
    exists k: nat :: k + 7 <= |s| && SpellsAt("<script", "<SCRIPT", s, k)
  }

  /** Newline, tab, or outside the two ranges of control characters. */
  predicate MayStay(c: char) { c == '\n' || c == '\t' || (32 <= c as int <= 126) || c as int >= 160 }

  /** What stored text may be. */
  predicate Clean(s: string, maxLen: nat) {
    |s| <= maxLen && (forall i :: 0 <= i < |s| ==> MayStay(s[i])) && !HasScript(s)
  }

  lemma {:induction false} SpellingLowers(lower: string, upper: string, s: string, k: nat)
    requires |lower| == |upper| && k + |lower| <= |s|
    requires forall i, c :: 0 <= i < |lower| ==> (LowerChar(c) == lower[i] <==> c == lower[i] || c == upper[i])
    ensures SpellsAt(lower, upper, s, k) <==> OccursAt(lower, Lower(s), k)
  {
    var part := Lower(s)[k..k + |lower|];
    assert forall i :: 0 <= i < |lower| ==> part[i] == LowerChar(s[k + i]);
    if SpellsAt(lower, upper, s, k) { assert part == lower; }
  }

  lemma LettersLower(c: char)
    ensures LowerChar(c) == '<' <==> c == '<'
    ensures LowerChar(c) == 's' <==> c == 's' || c == 'S'
    ensures LowerChar(c) == 'c' <==> c == 'c' || c == 'C'
    ensures LowerChar(c) == 'r' <==> c == 'r' || c == 'R'
    ensures LowerChar(c) == 'i' <==> c == 'i' || c == 'I'
    ensures LowerChar(c) == 'p' <==> c == 'p' || c == 'P'
    ensures LowerChar(c) == 't' <==> c == 't' || c == 'T'
  {
  }

  /** The check looks for the opener in any case. */
  lemma ScriptIs(s: string)
    ensures Contains(Lower(s), "<script") <==> HasScript(s)
  {
    var lower, upper := "<script", "<SCRIPT";
    forall i, c | 0 <= i < 7 ensures LowerChar(c) == lower[i] <==> c == lower[i] || c == upper[i] { LettersLower(c); }
    forall k: nat | k + 7 <= |s| ensures SpellsAt(lower, upper, s, k) <==> OccursAt(lower, Lower(s), k) {
      SpellingLowers(lower, upper, s, k);
    }
    hide SpellsAt, Lower;
    if Contains(Lower(s), lower) { var k :| 0 <= k <= |s| && OccursAt(lower, Lower(s), k); }
  }

  lemma {:induction false} FilterAgrees(f: char -> bool, g: char -> bool, s: string)
    requires forall c :: f(c) == g(c)
    ensures Filter(f, s) == Filter(g, s)
  {
    if s != "" { FilterAgrees(f, g, s[1..]); }
  }

  lemma ContainsNeedsFirst(s: string, needle: string)
    requires needle != "" && Contains(s, needle)
    ensures needle[0] in s
  {
    var k :| 0 <= k <= |s| && OccursAt(needle, s, k);
    assert s[k..k + |needle|][0] == s[k];
  }

  lemma PrefixContains(s: string, n: nat, needle: string)
    requires n <= |s| && Contains(Lower(s[..n]), needle)
    ensures Contains(Lower(s), needle)
  {
    var k :| 0 <= k <= n && OccursAt(needle, Lower(s[..n]), k);
    assert Lower(s)[k..k + |needle|] == Lower(s[..n])[k..k + |needle|];
    assert OccursAt(needle, Lower(s), k);
  }

  lemma {:induction false} FilterSubset(keep: char -> bool, other: char -> bool, s: string)
    requires forall i :: 0 <= i < |s| ==> other(s[i])
    ensures forall i :: 0 <= i < |Filter(keep, s)| ==> other(Filter(keep, s)[i])
  {
    if s != "" { FilterSubset(keep, other, s[1..]); }
  }

  lemma NoAngleNoScript(s: string)
    requires forall i :: 0 <= i < |s| ==> NotAngle(s[i])
    ensures !Contains(Lower(s), "<script")
  {
    assert forall i :: 0 <= i < |s| ==> Lower(s)[i] != '<' by {
      forall i | 0 <= i < |s| ensures Lower(s)[i] != '<' { assert NotAngle(s[i]); }
    }
    if Contains(Lower(s), "<script") { ContainsNeedsFirst(Lower(s), "<script"); }
  }

  /** What sanitising does: it drops control characters but newline and tab; from a text that still has a script
      opener, in any case, it drops all angle brackets; and it keeps the beginning, as much as fits. */
  lemma SanitizeTextIs(input: string, maxLen: nat)
    ensures var printable := Filter(MayStay, input);
      var text := if HasScript(printable) then Filter((c: char) => c != '<' && c != '>', printable) else printable;
      SanitizeText(input, maxLen) == if |text| <= maxLen then text else text[..maxLen]
  {
    var printable := Filter(MayStay, input);
    FilterAgrees(Printable, MayStay, input);
    ScriptIs(printable);
    FilterAgrees(NotAngle, (c: char) => c != '<' && c != '>', printable);
    hide Filter, Contains, HasScript, Lower;
  }

  /** The output is never longer than the cap, has no control characters but newline and tab, and no
      `<script` in any letter case. */
  lemma OutputIsClean(input: string, maxLen: nat)
    ensures Clean(SanitizeText(input, maxLen), maxLen)
  {
    ScriptIs(SanitizeText(input, maxLen));
    var stripped := Filter(Printable, input);
    var scripted := Contains(Lower(stripped), "<script");
    var cleaned := if scripted then Filter(NotAngle, stripped) else stripped;
    FilterSubset(NotAngle, Printable, stripped);
    if scripted { NoAngleNoScript(cleaned); }
    var n := Min(|cleaned|, maxLen);
    if Contains(Lower(cleaned[..n]), "<script") { PrefixContains(cleaned, n, "<script"); }
  }

  /** Clean text is exactly what sanitising leaves alone. */
  lemma CleanIffFixed(s: string, maxLen: nat)
    ensures Clean(s, maxLen) <==> SanitizeText(s, maxLen) == s
  {
    OutputIsClean(s, maxLen);
    if Clean(s, maxLen) {
      ScriptIs(s);
      FilterKeepsAll(Printable, s);
      assert s[..|s|] == s;
    }
  }

  /** Sanitising twice is sanitising once. */
  lemma SanitizeIdempotent(input: string, maxLen: nat)
    ensures SanitizeText(SanitizeText(input, maxLen), maxLen) == SanitizeText(input, maxLen)
  {
    OutputIsClean(input, maxLen);
    CleanIffFixed(SanitizeText(input, maxLen), maxLen);
  }

  // ---------- The whole advisory ----------

  datatype RawAdvisory = RawAdvisory(
    summary: string, suspiciousSignals: seq<string>, relevantHistory: string, riskLevel: string, riskRationale: string,
    recommendedNextSteps: seq<string>, confidence: real, explanation: string)

  datatype Sanitized = Sanitized(
    summary: string, suspiciousSignals: seq<string>, relevantHistory: string, riskLevel: string, riskRationale: string,
    recommendedNextSteps: seq<string>, confidence: real, explanation: string)

  datatype Result = Rejected | Accepted(advisory: Sanitized)

  /** Unicode White_Space. */
  predicate IsSpace(c: char) {
    var n := c as int;
    9 <= n <= 13 || n == 32 || n == 0x85 || n == 0xA0 || n == 0x1680 || 0x2000 <= n <= 0x200A
    || n == 0x2028 || n == 0x2029 || n == 0x202F || n == 0x205F || n == 0x3000
  }

  function TrimStart(s: string): string { if s != "" && IsSpace(s[0]) then TrimStart(s[1..]) else s }

  function TrimEnd(s: string): string { if s != "" && IsSpace(s[|s| - 1]) then TrimEnd(s[..|s| - 1]) else s }

  function Trim(s: string): string { TrimEnd(TrimStart(s)) }

  predicate AllowedRiskLevel(level: string) {
    level == "low" || level == "elevated" || level == "high" || level == "critical"
  }

  function RiskLevel(raw: string): string {
    var level := Lower(Trim(raw));
    if AllowedRiskLevel(level) then level else "unspecified"
  }

  function Clamp(x: real): real { if x < 0.0 then 0.0 else if x > 1.0 then 1.0 else x }

  function SanitizeList(items: seq<string>): seq<string> {
    Map((s: string) => SanitizeText(s, MAX_SHORT_LEN), items[..Min(|items|, MAX_LIST_ITEMS)])
  }

  function ValidateAndSanitize(raw: RawAdvisory): Result {
    if Trim(raw.summary) == "" then Rejected
    else Accepted(Sanitized(
      SanitizeText(raw.summary, MAX_TEXT_LEN), SanitizeList(raw.suspiciousSignals),
      SanitizeText(raw.relevantHistory, MAX_TEXT_LEN),
      RiskLevel(raw.riskLevel), SanitizeText(raw.riskRationale, MAX_TEXT_LEN), SanitizeList(raw.recommendedNextSteps),
      Clamp(raw.confidence), SanitizeText(raw.explanation, MAX_TEXT_LEN)))
  }

  ghost predicate CleanList(items: seq<string>) {
    |items| <= MAX_LIST_ITEMS && forall i :: 0 <= i < |items| ==> Clean(items[i], MAX_SHORT_LEN)
  }

  lemma ListIsClean(items: seq<string>)
    ensures CleanList(SanitizeList(items))
  {
    hide SanitizeText, Clean;
    forall s { OutputIsClean(s, MAX_SHORT_LEN); }
  }

  lemma {:induction false} TrimEndKeepsFirst(s: string)
    requires s != "" && !IsSpace(s[0])
    ensures TrimEnd(s) != "" && TrimEnd(s)[0] == s[0]
  {
    if IsSpace(s[|s| - 1]) { TrimEndKeepsFirst(s[..|s| - 1]); }
  }

  lemma {:induction false} TrimIsEmptyIff(s: string)
    ensures Trim(s) == "" <==> forall i :: 0 <= i < |s| ==> IsSpace(s[i])
  {
    if s != "" {
      if IsSpace(s[0]) {
        TrimIsEmptyIff(s[1..]);
        assert forall i :: 1 <= i < |s| ==> s[i] == s[1..][i - 1];
      } else {
        TrimEndKeepsFirst(s);
      }
    }
  }

  /** An advisory is rejected exactly when its summary is all white space; otherwise every text is clean at
      its cap, lists are bounded and clean, the level is from the closed vocabulary and confidence is in [0, 1]. */
  lemma AcceptedAdvisoryIsClean(raw: RawAdvisory)
    ensures var r := ValidateAndSanitize(raw);
      && (r.Rejected? <==> forall i :: 0 <= i < |raw.summary| ==> IsSpace(raw.summary[i]))
      && (r.Accepted? ==>
            var a := r.advisory;
            && Clean(a.summary, MAX_TEXT_LEN) && Clean(a.relevantHistory, MAX_TEXT_LEN)
            && Clean(a.riskRationale, MAX_TEXT_LEN) && Clean(a.explanation, MAX_TEXT_LEN)
            && CleanList(a.suspiciousSignals) && CleanList(a.recommendedNextSteps)
            && (AllowedRiskLevel(a.riskLevel) || a.riskLevel == "unspecified")
            && 0.0 <= a.confidence <= 1.0)
  {
    hide SanitizeText, SanitizeList, Clean, Trim, CleanList;
    TrimIsEmptyIff(raw.summary);
    OutputIsClean(raw.summary, MAX_TEXT_LEN);
    OutputIsClean(raw.relevantHistory, MAX_TEXT_LEN);
    OutputIsClean(raw.riskRationale, MAX_TEXT_LEN);
    OutputIsClean(raw.explanation, MAX_TEXT_LEN);
    ListIsClean(raw.suspiciousSignals);
    ListIsClean(raw.recommendedNextSteps);
  }

  // ---------- Every field from its own ----------

  lemma {:induction false} TrimEndOf(m: string, b: string)
    requires (m == "" || !IsSpace(m[|m| - 1])) && forall i :: 0 <= i < |b| ==> IsSpace(b[i])
    ensures TrimEnd(m + b) == m
  {
    if b == "" {
      assert m + b == m;
    } else {
      assert (m + b)[..|m + b| - 1] == m + b[..|b| - 1];
      TrimEndOf(m, b[..|b| - 1]);
    }
  }

  lemma {:induction false} TrimStartOf(a: string, rest: string)
    requires (rest == "" || !IsSpace(rest[0])) && forall i :: 0 <= i < |a| ==> IsSpace(a[i])
    ensures TrimStart(a + rest) == rest
  {
    if a == "" {
      assert a + rest == rest;
    } else {
      assert (a + rest)[1..] == a[1..] + rest;
      TrimStartOf(a[1..], rest);
    }
  }

  /** White space around a text that neither begins nor ends with it is what trimming takes away. */
  lemma TrimOf(a: string, m: string, b: string)
    requires (forall i :: 0 <= i < |a| ==> IsSpace(a[i])) && (forall i :: 0 <= i < |b| ==> IsSpace(b[i]))
    requires m != "" && !IsSpace(m[0]) && !IsSpace(m[|m| - 1])
    ensures Trim(a + (m + b)) == m
  {
    TrimStartOf(a, m + b);
    TrimEndOf(m, b);
  }

  lemma {:induction false} TrimStartIs(s: string) returns (a: string)
    ensures s == a + TrimStart(s) && forall i :: 0 <= i < |a| ==> IsSpace(a[i])
  {
    if s != "" && IsSpace(s[0]) {
      a := TrimStartIs(s[1..]);
      a := [s[0]] + a;
      assert s == [s[0]] + s[1..];
    } else {
      a := "";
    }
  }

  lemma {:induction false} TrimEndIs(s: string) returns (b: string)
    ensures s == TrimEnd(s) + b && forall i :: 0 <= i < |b| ==> IsSpace(b[i])
  {
    if s != "" && IsSpace(s[|s| - 1]) {
      b := TrimEndIs(s[..|s| - 1]);
      b := b + [s[|s| - 1]];
      assert s == s[..|s| - 1] + [s[|s| - 1]];
    } else {
      b := "";
      assert s + "" == s;
    }
  }

  predicate Letters(s: string) { s != "" && forall i :: 0 <= i < |s| ==> 'a' <= s[i] <= 'z' }

  /** The word, each letter in either case. */
  predicate Spells(m: string, level: string) {
    |m| == |level| && forall i :: 0 <= i < |m| ==> m[i] == level[i] || m[i] as int == level[i] as int - 32
  }

  predicate AllSpace(s: string) { forall i :: 0 <= i < |s| ==> IsSpace(s[i]) }

  /** The text is the word, each letter in either case, with white space around it. */
  ghost predicate Means(raw: string, level: string) {
    exists a, m, b :: raw == a + (m + b) && Spells(m, level) && AllSpace(a) && AllSpace(b)
  }

  lemma SpellsIs(m: string, level: string)
    requires Letters(level)
    ensures Spells(m, level) <==> Lower(m) == level
    ensures Spells(m, level) ==> m != "" && !IsSpace(m[0]) && !IsSpace(m[|m| - 1])
  {
    assert forall i :: 0 <= i < |m| ==> Lower(m)[i] == LowerChar(m[i]);
    if Spells(m, level) { assert forall i :: 0 <= i < |m| ==> LowerChar(m[i]) == level[i]; }
  }

  /** Trimming and lower-casing give a word exactly when the text means it. */
  lemma TrimmedWord(raw: string, level: string)
    requires Letters(level)
    ensures Lower(Trim(raw)) == level <==> Means(raw, level)
  {
    hide Spells, Lower, IsSpace, Letters, TrimStart, TrimEnd;
    if Lower(Trim(raw)) == level {
      var a := TrimStartIs(raw);
      var b := TrimEndIs(TrimStart(raw));
      SpellsIs(Trim(raw), level);
      assert raw == a + (Trim(raw) + b);
    }
    if Means(raw, level) {
      var a, m, b :| raw == a + (m + b) && Spells(m, level) && AllSpace(a) && AllSpace(b);
      SpellsIs(m, level);
      TrimOf(a, m, b);
    }
  }

  /** The stored level: one of the four words exactly when the text means it, otherwise none of them. */
  lemma RiskLevelIs(raw: string, level: string)
    requires level in {"low", "elevated", "high", "critical"}
    ensures RiskLevel(raw) == level <==> Means(raw, level)
    ensures RiskLevel(raw) in {"low", "elevated", "high", "critical", "unspecified"}
  {
    assert Letters("low") && Letters("elevated") && Letters("high") && Letters("critical");
    TrimmedWord(raw, level);
    hide Trim, Lower, Means;
    assert "unspecified"[0] != "low"[0] && "unspecified"[0] != "elevated"[0] && "unspecified"[0] != "high"[0]
        && "unspecified"[0] != "critical"[0];
  }

  predicate ItemsAreOwn(stored: seq<string>, given: seq<string>) {
    |stored| == (if |given| <= 10 then |given| else 10)
    && forall i :: 0 <= i < |stored| ==> stored[i] == SanitizeText(given[i], 300)
  }

  /** Each field of an accepted advisory comes from the field of the same name: texts sanitised at 2000 characters,
      the first ten items of each list at 300, the level by its word, the confidence brought into [0, 1]. */
  lemma FieldsAreOwn(raw: RawAdvisory)
    requires ValidateAndSanitize(raw).Accepted?
    ensures var a := ValidateAndSanitize(raw).advisory;
      && a.summary == SanitizeText(raw.summary, 2000) && a.relevantHistory == SanitizeText(raw.relevantHistory, 2000)
      && a.riskRationale == SanitizeText(raw.riskRationale, 2000)
      && a.explanation == SanitizeText(raw.explanation, 2000)
      && ItemsAreOwn(a.suspiciousSignals, raw.suspiciousSignals)
      && ItemsAreOwn(a.recommendedNextSteps, raw.recommendedNextSteps)
      && (raw.confidence < 0.0 ==> a.confidence == 0.0) && (raw.confidence > 1.0 ==> a.confidence == 1.0)
      && (0.0 <= raw.confidence <= 1.0 ==> a.confidence == raw.confidence)
      && (forall level :: level in {"low", "elevated", "high", "critical"} ==>
            (a.riskLevel == level <==> Means(raw.riskLevel, level)))
  {
    hide SanitizeText, Trim, Means, RiskLevel;
    forall level | level in {"low", "elevated", "high", "critical"}
      ensures RiskLevel(raw.riskLevel) == level <==> Means(raw.riskLevel, level)
    {
      RiskLevelIs(raw.riskLevel, level);
    }
  }

  lemma LevelStays(level: string)
    requires AllowedRiskLevel(level)
    ensures RiskLevel(level) == level
  {
    assert Letters("low") && Letters("elevated") && Letters("high") && Letters("critical");
    assert level == "" + (level + "");
    assert Spells(level, level);
    hide Spells, Lower, Trim;
    assert Means(level, level);
    TrimmedWord(level, level);
  }

  lemma ListStays(items: seq<string>)
    requires CleanList(items)
    ensures SanitizeList(items) == items
  {
    hide SanitizeText, Clean;
    forall i | 0 <= i < |items| { CleanIffFixed(items[i], MAX_SHORT_LEN); }
  }

  /** An advisory that is clean already is stored field by field as it is. */
  lemma CleanAdvisoryStays(raw: RawAdvisory)
    requires exists i :: 0 <= i < |raw.summary| && !IsSpace(raw.summary[i])
    requires Clean(raw.summary, MAX_TEXT_LEN) && Clean(raw.relevantHistory, MAX_TEXT_LEN)
    requires Clean(raw.riskRationale, MAX_TEXT_LEN) && Clean(raw.explanation, MAX_TEXT_LEN)
    requires CleanList(raw.suspiciousSignals) && CleanList(raw.recommendedNextSteps)
    requires AllowedRiskLevel(raw.riskLevel) && 0.0 <= raw.confidence <= 1.0
    ensures ValidateAndSanitize(raw) == Accepted(Sanitized(
      raw.summary, raw.suspiciousSignals, raw.relevantHistory, raw.riskLevel, raw.riskRationale,
      raw.recommendedNextSteps, raw.confidence, raw.explanation))
  {
    TrimIsEmptyIff(raw.summary);
    CleanIffFixed(raw.summary, MAX_TEXT_LEN);
    CleanIffFixed(raw.relevantHistory, MAX_TEXT_LEN);
    CleanIffFixed(raw.riskRationale, MAX_TEXT_LEN);
    CleanIffFixed(raw.explanation, MAX_TEXT_LEN);
    ListStays(raw.suspiciousSignals);
    ListStays(raw.recommendedNextSteps);
    LevelStays(raw.riskLevel);
    hide SanitizeText, SanitizeList, Clean, CleanList, Trim, RiskLevel, AllowedRiskLevel;
  }

  // ---------- An empty summary ----------

  lemma {:induction false} FilterEmptyIff(keep: char -> bool, s: string)
    ensures Filter(keep, s) == "" <==> forall i :: 0 <= i < |s| ==> !keep(s[i])
  {
    if s != "" {
      FilterEmptyIff(keep, s[1..]);
      assert forall i :: 1 <= i < |s| ==> s[i] == s[1..][i - 1];
    }
  }

  lemma ScriptLeavesText(s: string)
    requires Contains(Lower(s), "<script")
    ensures Filter(NotAngle, s) != "" && s != ""
  {
    var k :| 0 <= k <= |s| && OccursAt("<script", Lower(s), k);
    assert Lower(s)[k..k + 7][1] == 's';
    assert Lower(s)[k + 1] == 's';
    assert NotAngle(s[k + 1]);
    FilterEmptyIff(NotAngle, s);
  }

  /** The summary is checked before it is sanitised, so an accepted summary can still be stored empty:
      exactly when it consists of control characters that are dropped. */
  lemma AcceptedSummaryEmptyIff(raw: RawAdvisory)
    requires ValidateAndSanitize(raw).Accepted?
    ensures ValidateAndSanitize(raw).advisory.summary == ""
      <==> forall i :: 0 <= i < |raw.summary| ==> !MayStay(raw.summary[i])
  {
    hide Trim, SanitizeList, RiskLevel;
    FilterEmptyIff(Printable, raw.summary);
    if Contains(Lower(Filter(Printable, raw.summary)), "<script") { ScriptLeavesText(Filter(Printable, raw.summary)); }
    hide Contains, Filter;
  }

  /** The bell character is such a summary: it is no white space, so it is accepted, and it is dropped. */
  lemma BellIsStoredEmpty(raw: RawAdvisory)
    requires raw.summary == [7 as char]
    ensures ValidateAndSanitize(raw).Accepted? && ValidateAndSanitize(raw).advisory.summary == ""
  {
    hide SanitizeText, SanitizeList, RiskLevel;
    TrimIsEmptyIff(raw.summary);
    AcceptedSummaryEmptyIff(raw);
  }
}
