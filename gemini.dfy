/** Post-processing of the text-generation service's responses
    (services/gemini.ts): the Markdown clean-up applied to every response,
    the split of an analysis response into analysis and plan, the two
    serialisations of the session log, and the fixed strings that stand in
    for a failed call. The call itself is not modelled: its outcome is an
    input of type `Reply`. */
module Gemini {
  import opened Types
  import opened JsStrings

  // ---------------------------------------------------------------------
  // cleanText: five global regular-expression replacements, then trim.
  // Each stage scans its input left to right; a multiline `^` is judged on
  // the input of that stage (ECMA-262, section 22.2).
  // ---------------------------------------------------------------------

  /** The bullet glyph '•' (U+2022) that list markers are normalised to. */
  const Bullet: char := '\U{2022}'

  /** `^` under the `m` flag: position 0, or right after a line terminator. */
  predicate AtLineStart(s: string, i: nat)
    requires i <= |s|
  {
    i == 0 || IsLineTerminator(s[i - 1])
  }

  /** Length of the run of '#' starting at `i`, capped at `n`. */
  function HashRun(s: string, i: nat, n: nat): (k: nat)
    requires i <= |s|
    ensures k <= n && i + k <= |s|
    ensures forall j :: i <= j < i + k ==> s[j] == '#'
    ensures i + k < |s| && k < n ==> s[i + k] != '#'
    decreases n
  {
    if n == 0 || i == |s| || s[i] != '#' then 0 else 1 + HashRun(s, i + 1, n - 1)
  }

  /** `/^#{1,6}\s?/m` matches at `i`. */
  predicate HeadingAt(s: string, i: nat)
    requires i <= |s|
  {
    i < |s| && AtLineStart(s, i) && s[i] == '#'
  }

  /** End of the heading-marker match at `i`: the greedy `#{1,6}` takes as
      many '#' as it can up to six, then `\s?` takes one white-space
      character if one follows. */
  function HeadingMatchEnd(s: string, i: nat): (e: nat)
    requires i <= |s| && HeadingAt(s, i)
    ensures i < e <= |s|
  {
    var h := i + HashRun(s, i, 6);
    if h < |s| && IsWs(s[h]) then h + 1 else h
  }

  /** Stage 1, `.replace(/^#{1,6}\s?/gm, "")`, from index `i` on. */
  function StripHeadingsFrom(s: string, i: nat): (r: string)
    requires i <= |s|
    ensures |r| <= |s| - i
    ensures forall c :: c in r ==> c in s
    decreases |s| - i
  {
    if i == |s| then []
    else if HeadingAt(s, i) then StripHeadingsFrom(s, HeadingMatchEnd(s, i))
    else [s[i]] + StripHeadingsFrom(s, i + 1)
  }

  function StripHeadings(s: string): (r: string)
    ensures |r| <= |s|
    ensures forall c :: c in r ==> c in s
  {
    StripHeadingsFrom(s, 0)
  }

  /** No two adjacent asterisks. */
  predicate NoDoubleStar(s: string) {
    forall k :: 0 <= k < |s| - 1 ==> !(s[k] == '*' && s[k + 1] == '*')
  }

  // Stage 2, `.replace(/\*\*/g, "")`: removes "**" pairs scanning left to
  // right without overlap, so no "**" is left.
  function RemoveBold(s: string): (r: string)
    ensures |r| <= |s|
    ensures forall c :: c in r ==> c in s
    ensures NoDoubleStar(r)
    ensures s != [] && s[0] != '*' ==> r != [] && r[0] == s[0]
  {
    if |s| >= 2 && s[0] == '*' && s[1] == '*' then
      var r := RemoveBold(s[2..]);
      assert forall c :: c in s[2..] ==> c in s;
      r
    else if s == [] then []
    else
      var rest := RemoveBold(s[1..]);
      assert forall c :: c in s[1..] ==> c in s;
      [s[0]] + rest
  }

  /** A list marker character of `[\*•-]`. */
  predicate IsListMarker(c: char) {
    c == '*' || c == Bullet || c == '-'
  }

  /** End of the white-space run starting at `i`. */
  function WsRunEnd(s: string, i: nat): (j: nat)
    requires i <= |s|
    ensures i <= j <= |s|
    ensures forall k :: i <= k < j ==> IsWs(s[k])
    ensures j < |s| ==> !IsWs(s[j])
    decreases |s| - i
  {
    if i < |s| && IsWs(s[i]) then WsRunEnd(s, i + 1) else i
  }

  /** `/^\s*[\*•-]\s/m` matches at `i`. The greedy `\s*` can only succeed
      with the whole white-space run, since no white-space character is a
      list marker; the run may cross line terminators. */
  predicate ListItemAt(s: string, i: nat)
    requires i <= |s|
  {
    AtLineStart(s, i)
    && var j := WsRunEnd(s, i);
    j + 1 < |s| && IsListMarker(s[j]) && IsWs(s[j + 1])
  }

  /** Stage 3, `.replace(/^\s*[\*•-]\s/gm, "• ")`, from index `i` on: every
      match, at least two characters long, becomes the two characters "• ". */
  function NormalizeBulletsFrom(s: string, i: nat): (r: string)
    requires i <= |s|
    ensures |r| <= |s| - i
    ensures forall c :: c in r ==> c in s || c == Bullet || c == ' '
    decreases |s| - i
  {
    if i == |s| then []
    else if ListItemAt(s, i) then [Bullet, ' '] + NormalizeBulletsFrom(s, WsRunEnd(s, i) + 2)
    else [s[i]] + NormalizeBulletsFrom(s, i + 1)
  }

  function NormalizeBullets(s: string): (r: string)
    ensures |r| <= |s|
    ensures forall c :: c in r ==> c in s || c == Bullet || c == ' '
  {
    NormalizeBulletsFrom(s, 0)
  }

  /** Stages 4 and 5, `.replace(/`/g, "")` and `.replace(/\[|\]/g, "")`:
      every character of `cs` is removed, every other one is kept. */
  function DeleteChars(s: string, cs: set<char>): (r: string)
    ensures |r| <= |s|
    ensures forall c :: c in r ==> c in s && c !in cs
    ensures forall c :: c !in cs ==> multiset(r)[c] == multiset(s)[c]
  {
    if s == [] then []
    else
      var rest := DeleteChars(s[1..], cs);
      assert s == [s[0]] + s[1..];
      if s[0] in cs then rest else [s[0]] + rest
  }

  /** `cleanText`: the five replacements in order, then `trim`; the empty
      string is returned as it is. */
  function CleanText(text: string): (r: string)
    ensures text == "" ==> r == ""
    ensures r == [] || (!IsWs(r[0]) && !IsWs(r[|r| - 1]))
    ensures '`' !in r && '[' !in r && ']' !in r
    ensures |r| <= |text|
    ensures forall c :: c in r ==> c in text || c == Bullet || c == ' '
  {
    if text == "" then ""
    else
      var s1 := StripHeadings(text);
      var s2 := RemoveBold(s1);
      var s3 := NormalizeBullets(s2);
      var s4 := DeleteChars(s3, {'`'});
      var s5 := DeleteChars(s4, {'[', ']'});
      Trim(s5)
  }

  // ---------------------------------------------------------------------
  // Facts about the clean-up stages.
  // ---------------------------------------------------------------------

  /** Stage 1 changes nothing from index `i` on when no '#' follows it. */
  lemma {:induction false} StripHeadingsFromPlain(s: string, i: nat)
    requires i <= |s| && forall j :: i <= j < |s| ==> s[j] != '#'
    ensures StripHeadingsFrom(s, i) == s[i..]
    decreases |s| - i
  {
    if i < |s| {
      StripHeadingsFromPlain(s, i + 1);
      assert s[i..] == [s[i]] + s[i + 1..];
    }
  }

  /** Stage 2 changes nothing in a text without "**", so applying it twice
      is applying it once. */
  lemma {:induction false} RemoveBoldPlain(s: string)
    requires NoDoubleStar(s)
    ensures RemoveBold(s) == s
  {
    if s != [] {
      assert NoDoubleStar(s[1..]) by {
        forall k | 0 <= k < |s[1..]| - 1 ensures !(s[1..][k] == '*' && s[1..][k + 1] == '*') {
          assert s[1..][k] == s[k + 1] && s[1..][k + 1] == s[k + 2];
        }
      }
      RemoveBoldPlain(s[1..]);
      assert s == [s[0]] + s[1..];
    }
  }

  lemma RemoveBoldIdempotent(s: string)
    ensures RemoveBold(RemoveBold(s)) == RemoveBold(s)
  {
    RemoveBoldPlain(RemoveBold(s));
  }

  /** Stage 3 changes nothing in a text without list markers. */
  lemma {:induction false} NormalizeBulletsFromPlain(s: string, i: nat)
    requires i <= |s| && '*' !in s && '-' !in s && Bullet !in s
    ensures NormalizeBulletsFrom(s, i) == s[i..]
    decreases |s| - i
  {
    if i < |s| {
      var j := WsRunEnd(s, i);
      assert j < |s| ==> !IsListMarker(s[j]);
      NormalizeBulletsFromPlain(s, i + 1);
      assert s[i..] == [s[i]] + s[i + 1..];
    }
  }

  /** Stages 4 and 5 change nothing in a text without the removed characters. */
  lemma {:induction false} DeleteCharsPlain(s: string, cs: set<char>)
    requires forall c :: c in cs ==> c !in s
    ensures DeleteChars(s, cs) == s
  {
    if s != [] {
      assert s == [s[0]] + s[1..];
      DeleteCharsPlain(s[1..], cs);
    }
  }

  /** Text without a Markdown character. */
  predicate IsPlain(s: string) {
    '#' !in s && '*' !in s && '-' !in s && Bullet !in s
    && '`' !in s && '[' !in s && ']' !in s
  }

  /** Stages 2 to 5 change nothing in a text without Markdown characters. */
  lemma LaterStagesPlain(x: string)
    requires IsPlain(x)
    ensures RemoveBold(x) == x
    ensures NormalizeBullets(x) == x
    ensures DeleteChars(x, {'`'}) == x
    ensures DeleteChars(x, {'[', ']'}) == x
  {
    assert NoDoubleStar(x);
    RemoveBoldPlain(x);
    NormalizeBulletsFromPlain(x, 0);
    DeleteCharsPlain(x, {'`'});
    DeleteCharsPlain(x, {'[', ']'});
  }

  /** When stage 1 leaves a text without Markdown characters, `cleanText`
      only trims that text. */
  lemma CleanTextAfterHeadings(s: string, x: string)
    requires s != "" && StripHeadings(s) == x && IsPlain(x)
    ensures CleanText(s) == Trim(x)
  {
    LaterStagesPlain(x);
  }

  /** `cleanText` only trims a text without Markdown characters. */
  lemma CleanTextPlain(s: string)
    requires IsPlain(s)
    ensures CleanText(s) == Trim(s)
  {
    if s != "" {
      StripHeadingsFromPlain(s, 0);
      CleanTextAfterHeadings(s, s);
    }
  }

  /** `trim` leaves a text alone when neither end is white space. */
  lemma TrimTrimmed(s: string)
    requires s == [] || (!IsWs(s[0]) && !IsWs(s[|s| - 1]))
    ensures Trim(s) == s
  {
    assert LeadingWs(s) == 0;
    assert TrailingWs(s) == 0;
  }

  /** A text that is plain and already trimmed. */
  predicate IsPlainTrimmed(x: string) {
    x != [] && IsPlain(x) && !IsWs(x[0]) && !IsWs(x[|x| - 1])
  }

  /** A heading marker in front of a plain text is stripped. */
  lemma HeadingMarkerStripped(x: string)
    requires IsPlainTrimmed(x)
    ensures CleanText("#" + x) == x
  {
    var s := "#" + x;
    assert StripHeadings(s) == x by {
      assert HashRun(s, 1, 5) == 0;
      assert HeadingMatchEnd(s, 0) == 1;
      StripHeadingsFromPlain(s, 1);
      assert s[1..] == x;
    }
    CleanTextAfterHeadings(s, x);
    TrimTrimmed(x);
  }

  /** Stage 1 leaves "`#" + x alone: the '#' does not follow a line
      terminator. */
  lemma BacktickStage1(x: string)
    requires IsPlain(x)
    ensures StripHeadings("`#" + x) == "`#" + x
  {
    var s := "`#" + x;
    StripHeadingsFromPlain(s, 2);
    assert s[2..] == x;
    assert !HeadingAt(s, 0) && !HeadingAt(s, 1);
    assert StripHeadingsFrom(s, 1) == [s[1]] + x;
    assert s == [s[0]] + ([s[1]] + x);
  }

  /** Stages 1 to 3 leave "`#" + x alone. */
  lemma BacktickFirstStages(x: string)
    requires IsPlain(x)
    ensures NormalizeBullets(RemoveBold(StripHeadings("`#" + x))) == "`#" + x
  {
    var s := "`#" + x;
    BacktickStage1(x);
    RemoveBoldPlain(s);
    NormalizeBulletsFromPlain(s, 0);
  }

  /** Stage 4 removes the backtick of "`#" + x; stage 5 and `trim` keep the
      rest. */
  lemma BacktickLastStages(x: string)
    requires IsPlainTrimmed(x)
    ensures Trim(DeleteChars(DeleteChars("`#" + x, {'`'}), {'[', ']'})) == "#" + x
  {
    var s, t := "`#" + x, "#" + x;
    assert s[1..] == t;
    DeleteCharsPlain(t, {'`'});
    DeleteCharsPlain(t, {'[', ']'});
    TrimTrimmed(t);
  }

  /** A backtick in front of a heading marker hides the marker from stage 1
      (the marker is no longer at a line start) and is itself removed by
      stage 4, so the marker survives. */
  lemma BacktickHidesHeading(x: string)
    requires IsPlainTrimmed(x)
    ensures CleanText("`#" + x) == "#" + x
  {
    BacktickFirstStages(x);
    BacktickLastStages(x);
  }

  /** `cleanText` is not idempotent: for every plain trimmed text x, a second
      pass over the result for "`#" + x strips the heading marker that the
      first pass let through. */
  lemma CleanTextNotIdempotent(x: string)
    requires IsPlainTrimmed(x)
    ensures CleanText(CleanText("`#" + x)) != CleanText("`#" + x)
  {
    BacktickHidesHeading(x);
    HeadingMarkerStripped(x);
    assert |x| < |"#" + x|;
  }

  // ---------------------------------------------------------------------
  // generateSessionAnalysis: split on the separator, with a fallback.
  // ---------------------------------------------------------------------

  /** The token the analysis prompt asks the service to put between the
      analysis and the plan. */
  const Separator: string := "---PLAN_SEPARATOR---"

  /** Plan text used when the response does not split into two parts. */
  function PlanFallback(lang: Language): string {
    if lang == Zh then "未能自动分离方案，请参考分析内容手动填写。"
    else "Could not separate plan automatically, please see analysis."
  }

  /** Analysis text used when the analysis call fails. */
  function AnalysisFailure(lang: Language): string {
    if lang == Zh then "分析生成失败，请重试。" else "Analysis failed, please retry."
  }

  /** Result of the summary call when it fails. */
  function SummaryFailure(lang: Language): string {
    if lang == Zh then "摘要生成失败。" else "Summary generation failed."
  }

  /** Result of the plan call when it fails. */
  function PlanFailure(lang: Language): string {
    if lang == Zh then "方案生成失败。" else "Plan generation failed."
  }

  /** Outcome of one call to the text-generation service: the call failed
      (threw), or it answered with a `text` that may be absent. */
  datatype Reply = Failed | Answered(text: Option<string>)

  /** What `cleanText` can return: no backtick or square bracket, and no
      white space at either end. */
  predicate IsClean(t: string) {
    '`' !in t && '[' !in t && ']' !in t
    && (t == [] || (!IsWs(t[0]) && !IsWs(t[|t| - 1])))
  }

  /** The analysis response split into analysis and plan: with exactly two
      parts each is trimmed and cleaned, otherwise the whole text is the
      analysis and the plan is the fallback string. */
  function ParseAnalysis(resultText: string, lang: Language): (r: GeminiResponse)
    ensures IsClean(r.analysis)
    ensures IsClean(r.plan) || r.plan == PlanFallback(lang)
  {
    var parts := Split(resultText, Separator);
    if |parts| == 2 then
      GeminiResponse(CleanText(Trim(parts[0])), CleanText(Trim(parts[1])))
    else
      GeminiResponse(CleanText(resultText), PlanFallback(lang))
  }

  /** `generateSessionAnalysis` once the service has answered or failed.
      Whatever happens the caller gets an analysis and a plan to edit. */
  function GenerateSessionAnalysis(reply: Reply, lang: Language): (r: GeminiResponse)
    ensures reply.Failed? ==> r.analysis == AnalysisFailure(lang) && r.plan == ""
    ensures reply.Answered? ==> r == ParseAnalysis(reply.text.GetOr(""), lang)
    ensures reply.Answered? ==> IsClean(r.analysis)
    ensures reply.Answered? ==> IsClean(r.plan) || r.plan == PlanFallback(lang)
  {
    match reply
    case Failed => GeminiResponse(AnalysisFailure(lang), "")
    case Answered(text) => ParseAnalysis(text.GetOr(""), lang)
  }

  /** A response with one separator, where the first occurrence of the
      separator is the one after `before` and none follows, yields the two
      cleaned halves. */
  lemma OneSeparator(before: string, after: string, lang: Language)
    requires IndexOf(before + Separator, Separator) == |before|
    requires IndexOf(after, Separator) == -1
    ensures ParseAnalysis(before + Separator + after, lang)
         == GeminiResponse(CleanText(Trim(before)), CleanText(Trim(after)))
  {
    SplitOnce(before, Separator, after);
  }

  /** Any number of parts other than two gives the whole cleaned text and
      the fallback plan; in particular a response without the separator gets
      the fallback plan. */
  lemma SeparatorCount(resultText: string, lang: Language)
    ensures var parts := Split(resultText, Separator);
            |parts| != 2 ==> ParseAnalysis(resultText, lang)
                             == GeminiResponse(CleanText(resultText), PlanFallback(lang))
    ensures IndexOf(resultText, Separator) == -1 ==>
              ParseAnalysis(resultText, lang).plan == PlanFallback(lang)
  {
  }

  /** A response holding two separators that do not overlap is not split:
      the whole text is the analysis and the plan is the fallback. */
  lemma TwoSeparators(resultText: string, lang: Language, i: nat, j: nat)
    requires OccursAt(resultText, Separator, i) && OccursAt(resultText, Separator, j)
    requires i + |Separator| <= j
    ensures ParseAnalysis(resultText, lang)
         == GeminiResponse(CleanText(resultText), PlanFallback(lang))
  {
    TwoOccurrences(resultText, Separator, i, j);
  }

  /** An absent response text is treated as the empty text. */
  lemma AbsentText(lang: Language)
    ensures GenerateSessionAnalysis(Answered(None), lang)
         == GeminiResponse("", PlanFallback(lang))
  {
    assert Split("", Separator) == [""];
  }

  /** An analysis and an intervention, each plain and on a line of its own
      around the separator line, come back as they are. */
  lemma SeparatorLines(x: string, y: string, lang: Language)
    requires IsPlainTrimmed(x) && IsPlainTrimmed(y)
    ensures GenerateSessionAnalysis(Answered(Some(x + "\n" + Separator + "\n" + y)), lang)
         == GeminiResponse(x, y)
  {
    var a, b := x + "\n", "\n" + y;
    assert x + "\n" + Separator + "\n" + y == a + Separator + b;
    assert IndexOf(a + Separator, Separator) == |a| && IndexOf(b, Separator) == -1 by {
      assert '-' !in a && '-' !in b;
      NoLeadNoOccurrence(a, Separator);
      NoLeadNoOccurrence(b, Separator);
    }
    OneSeparator(a, b, lang);
    assert CleanText(Trim(a)) == x by {
      TrimLineFeed(x);
      CleanTextPlain(x);
      TrimTrimmed(x);
    }
    assert CleanText(Trim(b)) == y by {
      TrimLineFeed(y);
      CleanTextPlain(y);
      TrimTrimmed(y);
    }
  }

  /** The worked example: "A: deadlines", the separator and "B: breathing
      exercise" on three lines give that analysis and that plan. */
  lemma SeparatorExample()
    ensures var x, y := "A: deadlines", "B: breathing exercise";
            GenerateSessionAnalysis(Answered(Some(x + "\n" + Separator + "\n" + y)), En)
            == GeminiResponse(x, y)
  {
    ExampleTextsPlain();
    SeparatorLines("A: deadlines", "B: breathing exercise", En);
  }

  lemma ExampleTextsPlain()
    ensures IsPlainTrimmed("A: deadlines")
    ensures IsPlainTrimmed("B: breathing exercise")
  {
    var a, b := "B: breathing", " exercise";
    assert IsPlain(a) && IsPlain(b);
    assert a + b == "B: breathing exercise";
  }

  /** A line feed before or after a trimmed text is removed by `trim`. */
  lemma TrimLineFeed(t: string)
    requires t != [] && !IsWs(t[0]) && !IsWs(t[|t| - 1])
    ensures Trim(t + "\n") == t && Trim("\n" + t) == t
  {
    var a := t + "\n";
    assert a[..|a| - 1] == t;
    assert TrailingWs(a) == 1;
    var b := "\n" + t;
    assert b[1..] == t;
    assert LeadingWs(b) == 1;
  }

  // ---------------------------------------------------------------------
  // generateExecutiveSummary and generateComprehensivePlan.
  // ---------------------------------------------------------------------

  /** The `AnalysisMode` literal as the source spells it. */
  function ModeName(m: AnalysisMode): string {
    match m
    case CBT => "CBT"
    case Psychoanalysis => "Psychoanalysis"
    case Humanistic => "Humanistic"
  }

  /** "Session i+1": the label of the session at position `i`. */
  function SessionLabel(i: nat): string {
    "Session " + NatToString(i + 1)
  }

  /** Line of the summary request for session `s` at position `i`. */
  function SummaryLine(s: Session, i: nat): string {
    SessionLabel(i) + " (" + ModeName(s.mode) + "): Client said \""
    + s.clientStatement + "\" -> Analysis: " + Prefix(s.analysis, 100)
    + "... -> Feedback: " + (if s.feedback == "" then "None" else s.feedback)
  }

  /** Line of the plan request for session `s` at position `i`. */
  function PlanLine(s: Session, i: nat): string {
    SessionLabel(i) + " Plan: " + s.plan
  }

  function SummaryLines(sessions: seq<Session>): (lines: seq<string>)
    ensures |lines| == |sessions|
    ensures forall i :: 0 <= i < |sessions| ==> lines[i] == SummaryLine(sessions[i], i)
  {
    seq(|sessions|, i requires 0 <= i < |sessions| => SummaryLine(sessions[i], i))
  }

  function PlanLines(sessions: seq<Session>): (lines: seq<string>)
    ensures |lines| == |sessions|
    ensures forall i :: 0 <= i < |sessions| ==> lines[i] == PlanLine(sessions[i], i)
  {
    seq(|sessions|, i requires 0 <= i < |sessions| => PlanLine(sessions[i], i))
  }

  /** `sessionText`: the summary lines joined by line feeds. */
  function SessionText(sessions: seq<Session>): string {
    Join(SummaryLines(sessions), "\n")
  }

  /** `plansText`: the plan lines joined by line feeds. */
  function PlansText(sessions: seq<Session>): string {
    Join(PlanLines(sessions), "\n")
  }

  /** The session data that goes into the summary prompt, or None when the
      session list is empty and no call is made; `GenerateExecutiveSummary`
      answers "" on None. */
  function SummaryRequest(sessions: seq<Session>): (r: Option<string>)
    ensures r == None <==> |sessions| == 0
  {
    if |sessions| == 0 then None else Some(SessionText(sessions))
  }

  /** The session data that goes into the plan prompt, or None when the
      session list is empty and no call is made; `GenerateComprehensivePlan`
      answers "" on None. */
  function PlanRequest(sessions: seq<Session>): (r: Option<string>)
    ensures r == None <==> |sessions| == 0
  {
    if |sessions| == 0 then None else Some(PlansText(sessions))
  }

  /** `generateExecutiveSummary` once the service has answered or failed:
      "" without a call for an empty log, the fixed failure string on
      failure, otherwise the cleaned answer. */
  function GenerateExecutiveSummary(sessions: seq<Session>, lang: Language, reply: Reply): (r: string)
    ensures |sessions| == 0 ==> r == ""
    ensures |sessions| > 0 && reply.Failed? ==> r == SummaryFailure(lang)
    ensures |sessions| > 0 && reply.Answered? ==> r == CleanText(reply.text.GetOr(""))
    ensures |sessions| > 0 && reply.Answered? ==> IsClean(r)
  {
    match SummaryRequest(sessions)
    case None => ""
    case Some(_) =>
      match reply
      case Failed => SummaryFailure(lang)
      case Answered(text) => CleanText(text.GetOr(""))
  }

  /** `generateComprehensivePlan` once the service has answered or failed. */
  function GenerateComprehensivePlan(sessions: seq<Session>, lang: Language, reply: Reply): (r: string)
    ensures |sessions| == 0 ==> r == ""
    ensures |sessions| > 0 && reply.Failed? ==> r == PlanFailure(lang)
    ensures |sessions| > 0 && reply.Answered? ==> r == CleanText(reply.text.GetOr(""))
    ensures |sessions| > 0 && reply.Answered? ==> IsClean(r)
  {
    match PlanRequest(sessions)
    case None => ""
    case Some(_) =>
      match reply
      case Failed => PlanFailure(lang)
      case Answered(text) => CleanText(text.GetOr(""))
  }

  /** A session whose fields printed in the summary request hold no line
      feed: the statement, the feedback and the first 100 characters of the
      analysis. */
  predicate SummarySingleLine(s: Session) {
    '\n' !in s.clientStatement && '\n' !in Prefix(s.analysis, 100) && '\n' !in s.feedback
  }

  /** A session whose plan, the one field printed in the plan request, holds
      no line feed. */
  predicate PlanSingleLine(s: Session) {
    '\n' !in s.plan
  }

  lemma NatToStringSingleLine(n: nat)
    ensures '\n' !in NatToString(n)
  {
    var r := NatToString(n);
    forall i | 0 <= i < |r| ensures r[i] != '\n' {
      assert '0' <= r[i] <= '9';
    }
  }

  lemma SummaryLineSingleLine(s: Session, i: nat)
    requires SummarySingleLine(s)
    ensures '\n' !in SummaryLine(s, i)
  {
    var head := SessionLabel(i) + " (" + ModeName(s.mode) + "): Client said \"";
    assert '\n' !in head by { NatToStringSingleLine(i + 1); }
    var p := Prefix(s.analysis, 100);
    var f := if s.feedback == "" then "None" else s.feedback;
    assert '\n' !in f;
    assert '\n' !in head + s.clientStatement + "\" -> Analysis: " + p + "... -> Feedback: " + f;
  }

  lemma PlanLineSingleLine(s: Session, i: nat)
    requires PlanSingleLine(s)
    ensures '\n' !in PlanLine(s, i)
  {
    NatToStringSingleLine(i + 1);
  }

  /** When no session holds a line feed in a field the summary prints,
      splitting the summary text on line feeds gives back one line per
      session, in order. */
  lemma SessionTextLines(sessions: seq<Session>)
    requires |sessions| > 0
    requires forall s :: s in sessions ==> SummarySingleLine(s)
    ensures Split(SessionText(sessions), "\n") == SummaryLines(sessions)
  {
    var lines := SummaryLines(sessions);
    forall l | l in lines ensures '\n' !in l {
      var i :| 0 <= i < |lines| && lines[i] == l;
      SummaryLineSingleLine(sessions[i], i);
    }
    SplitJoin(lines, '\n');
  }

  /** The same for the plan text, when no plan holds a line feed. */
  lemma PlansTextLines(sessions: seq<Session>)
    requires |sessions| > 0
    requires forall s :: s in sessions ==> PlanSingleLine(s)
    ensures Split(PlansText(sessions), "\n") == PlanLines(sessions)
  {
    var lines := PlanLines(sessions);
    forall l | l in lines ensures '\n' !in l {
      var i :| 0 <= i < |lines| && lines[i] == l;
      PlanLineSingleLine(sessions[i], i);
    }
    SplitJoin(lines, '\n');
  }
}
