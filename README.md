# MindScribe case records in Dafny

MindScribe is a browser application for psychological counsellors. A counsellor
takes down a client's details on an intake form. Each client statement is logged
as a session record, and a text-generation service is asked for an analysis and
an intervention plan for it. The service also writes an executive summary and a
comprehensive plan over the whole log. A case can be saved as an archive, and
archives can be reopened or deleted.

This project models two parts of the program:

- **The case-record controller of `App.tsx`**, as the class `AppState.App`. It has
  one field per piece of component state, plus `stored` for the persisted archive
  list. Each event handler is a method, and field-level `modifies` frames
  (`this`sessions`, …) make "nothing else changes" part of every contract.
- **The list and record edits the handlers use**, in module `CaseRecords`:
  - find-index and upsert on the archive list;
  - `filter` by id;
  - `map` by id on the session log;
  - object spread on the client info.
  
  These are pure functions, and lemmas prove the invariants they keep.
- **The response post-processing of `services/gemini.ts`**, in module `Gemini`,
  as pure functions over strings:
  - the `cleanText` chain of regular-expression replacements;
  - the plan-separator split with its fallback;
  - the two session serialisers;
  - the empty-log short-circuits and failure strings.

Module `JsStrings` models the ECMAScript built-ins these rely on:

- what the regular-expression class `\s` matches (ECMA-262, sections 12.2 and 12.3);
- `trim`, `indexOf`, `split` with a string separator, `join` and `substring(0, n)`.

Module `Types` holds the records of `types.ts`.

How the browser is modelled:

- Whatever the browser decides becomes a parameter:
  - the answer to a confirmation dialog;
  - the millisecond clock;
  - a locale-formatted date;
  - the outcome of a call to the text-generation service (`Gemini.Reply`: failed,
    or answered with a text that may be absent).
- An `async` handler becomes two methods:
  - `Start…` runs up to the `await`, raises the busy flag and returns the
    request's arguments;
  - `Complete…` applies the settled result and lowers the flag.

Two facts about the code are worth stating up front:

- **`cleanText` is not idempotent.** "`#x" cleans to "#x", and cleaning that
  again gives "x". The backtick hides the heading marker from the first stage
  and is then removed. `Gemini.CleanTextNotIdempotent` proves this for the
  input "`#" + x, for every non-empty plain text x with no white space at
  either end.
- **Loading has no "not found" outcome.** The handler receives the archive
  object chosen from the list (App.tsx:378, 625), not an id to look up.

## Model

| member | source | states |
|---|---|---|
| `JsStrings.LeadingWs` | services/gemini.ts:15 | the count of white-space characters at the front: all of them white space, and the next one not |
| `JsStrings.TrailingWs` | services/gemini.ts:15 | the count of white-space characters at the end: all of them white space, and the one before not |
| `JsStrings.Trim` | services/gemini.ts:15 | `trim()` yields an infix whose surroundings are blank, whose ends are not white space, and which is empty exactly when the input is blank (bundled as `IsTrimOf`) |
| `JsStrings.IndexOfFrom` | services/gemini.ts:68 | the first index at or after `from` where the separator occurs, or -1 and no occurrence at all |
| `JsStrings.IndexOf` | services/gemini.ts:68 | the first occurrence of the separator, or -1 when there is none |
| `JsStrings.Split` | services/gemini.ts:68 | `split` yields at least one piece, and no piece contains the separator |
| `JsStrings.JoinSplit` | services/gemini.ts:68 | joining the pieces of a split with the same separator rebuilds the text |
| `JsStrings.SplitHead` | services/gemini.ts:68 | the first piece is the text before the first occurrence (the whole text when there is none) |
| `JsStrings.SplitAtFirst` | services/gemini.ts:68 | a split at the first occurrence is the text before it followed by the split of the rest |
| `JsStrings.SplitUnfold` | services/gemini.ts:68 | with an occurrence at i, the first occurrence is at or before i and the split unfolds there |
| `JsStrings.TwoOccurrences` | services/gemini.ts:68-70 | two non-overlapping occurrences of the separator give at least three pieces |
| `JsStrings.SplitOnce` | services/gemini.ts:68-70 | a text holding the separator once splits into exactly the two texts around it |
| `JsStrings.NoLeadNoOccurrence` | services/gemini.ts:68 | a text without the separator's first character holds no separator, and appending one puts the first occurrence at its end |
| `JsStrings.SplitJoin` | services/gemini.ts:93 | joining lines with "\n" and splitting again gives the lines back when none contains a line feed |
| `JsStrings.NoCharNoOccurrence` | services/gemini.ts:93 | a text without a character has no occurrence of it |
| `JsStrings.FirstOccurrenceOfChar` | services/gemini.ts:93 | the first occurrence of a character is right after a prefix without it |
| `JsStrings.Join` | services/gemini.ts:93 | definition of `Array.prototype.join`; properties in `JoinSplit` and `SplitJoin` |
| `JsStrings.Prefix` | services/gemini.ts:93 | `substring(0, 100)` is a prefix of length min(length, 100) |
| `JsStrings.NatToString` | services/gemini.ts:93 | the session number prints as decimal digits that denote it, with no leading zero |
| `Gemini.HashRun` | services/gemini.ts:10 | the greedy `#{1,6}` run: all '#', at most six, and stopped by a non-'#' or by the cap |
| `Gemini.HeadingMatchEnd` | services/gemini.ts:10 | a heading match at a line start consumes at least one character and stays inside the text |
| `Gemini.StripHeadingsFrom` | services/gemini.ts:10 | removing line-start heading markers never lengthens the text or adds a character |
| `Gemini.StripHeadings` | services/gemini.ts:10 | the heading stage never lengthens the text or adds a character |
| `Gemini.RemoveBold` | services/gemini.ts:11 | removing every "**" leaves no "**", adds nothing, and keeps a first character that is not '*' |
| `Gemini.WsRunEnd` | services/gemini.ts:12 | `\s*` takes exactly the maximal run of white space |
| `Gemini.NormalizeBulletsFrom` | services/gemini.ts:12 | bullet normalisation from an index never lengthens the text, and adds only the bullet and the space |
| `Gemini.NormalizeBullets` | services/gemini.ts:12 | the list stage never lengthens the text, and adds only the bullet and the space |
| `Gemini.DeleteChars` | services/gemini.ts:13-14 | deleting a set of characters leaves none of them, and keeps the count of every other character |
| `Gemini.CleanText` | services/gemini.ts:7-16 | "" stays ""; the result has no white space at either end, no backtick, '[' or ']', is no longer than the input, and adds only the bullet and the space |
| `Gemini.StripHeadingsFromPlain` | services/gemini.ts:10 | without any '#' the heading stage changes nothing |
| `Gemini.RemoveBoldPlain` | services/gemini.ts:11 | a text without "**" passes the bold stage unchanged |
| `Gemini.RemoveBoldIdempotent` | services/gemini.ts:11 | the bold stage alone is idempotent |
| `Gemini.NormalizeBulletsFromPlain` | services/gemini.ts:12 | without list markers the list stage changes nothing |
| `Gemini.DeleteCharsPlain` | services/gemini.ts:13-14 | deleting characters a text does not hold changes nothing |
| `Gemini.LaterStagesPlain` | services/gemini.ts:11-14 | a text without markup passes the stages after the heading stage unchanged |
| `Gemini.CleanTextAfterHeadings` | services/gemini.ts:9-15 | once the heading stage leaves markup-free text, cleaning is just trimming it |
| `Gemini.CleanTextPlain` | services/gemini.ts:7-16 | cleaning a text without markup is trimming it |
| `Gemini.TrimTrimmed` | services/gemini.ts:15 | trimming a text with no white space at either end changes nothing |
| `Gemini.HeadingMarkerStripped` | services/gemini.ts:10 | a leading "#" before plain trimmed text is removed |
| `Gemini.BacktickStage1` | services/gemini.ts:10 | a "#" after a backtick is not at a line start, so the heading stage keeps it |
| `Gemini.BacktickFirstStages` | services/gemini.ts:10-12 | "`#" + x passes the first three stages unchanged |
| `Gemini.BacktickLastStages` | services/gemini.ts:13-15 | the last stages remove the backtick and leave "#" + x |
| `Gemini.BacktickHidesHeading` | services/gemini.ts:7-16 | cleaning "`#" + x yields "#" + x |
| `Gemini.CleanTextNotIdempotent` | services/gemini.ts:7-16 | cleaning twice differs from cleaning once on the input "`#" + x, for every non-empty plain text x with no white space at either end |
| `Gemini.ParseAnalysis` | services/gemini.ts:67-80 | the parsed analysis is always clean; the plan is clean or the language's fallback |
| `Gemini.GenerateSessionAnalysis` | services/gemini.ts:61-87 | a failed call yields the fixed failure analysis and an empty plan; an answer is the split-or-fallback parse of its text ("" when absent): a clean analysis and a clean or fallback plan |
| `Gemini.OneSeparator` | services/gemini.ts:68-74 | with exactly one separator the analysis and plan are the cleaned, trimmed texts on each side |
| `Gemini.SeparatorCount` | services/gemini.ts:75-79 | with any other number of pieces the whole text is cleaned and the plan is the fallback; no separator means the fallback plan |
| `Gemini.TwoSeparators` | services/gemini.ts:68-79 | a response with two non-overlapping separators is not split: whole text cleaned, fallback plan |
| `Gemini.AbsentText` | services/gemini.ts:67 | an answer without text counts as "": empty analysis, fallback plan |
| `Gemini.SeparatorLines` | services/gemini.ts:67-74 | "x\n---PLAN_SEPARATOR---\ny" with plain trimmed x and y yields exactly x and y |
| `Gemini.SeparatorExample` | services/gemini.ts:67-74 | "A: deadlines\n---PLAN_SEPARATOR---\nB: breathing exercise" yields "A: deadlines" and "B: breathing exercise" |
| `Gemini.ExampleTextsPlain` | services/gemini.ts:67-74 | both example halves are plain and trimmed |
| `Gemini.TrimLineFeed` | services/gemini.ts:72-73 | trimming removes the line feed next to the separator |
| `Gemini.ModeName` | services/gemini.ts:93 | definition: the mode as the text the template prints |
| `Gemini.SessionLabel` | services/gemini.ts:93 | definition: "Session " followed by the one-based position; digits in `NatToString` |
| `Gemini.SummaryLine` | services/gemini.ts:93 | definition: label, mode, the full statement, the first at most 100 characters of the analysis then "...", and the feedback or "None"; properties in `SummaryLineSingleLine` and `SummaryLines` |
| `Gemini.PlanLine` | services/gemini.ts:145 | definition: label, " Plan: " and the full plan; properties in `PlanLineSingleLine` and `PlanLines` |
| `Gemini.SessionText` | services/gemini.ts:93 | definition: the summary lines joined by "\n"; properties in `SessionTextLines` |
| `Gemini.PlansText` | services/gemini.ts:145 | definition: the plan lines joined by "\n"; properties in `PlansTextLines` |
| `Gemini.PlanFallback` | services/gemini.ts:78 | definition: the fixed plan text when the response does not split in two; used in `SeparatorCount` and `TwoSeparators` |
| `Gemini.AnalysisFailure` | services/gemini.ts:84 | definition: the fixed analysis text of a failed call; used in `GenerateSessionAnalysis` |
| `Gemini.SummaryFailure` | services/gemini.ts:138 | definition: the fixed summary text of a failed call; used in `GenerateExecutiveSummary` |
| `Gemini.PlanFailure` | services/gemini.ts:187 | definition: the fixed plan text of a failed call; used in `GenerateComprehensivePlan` |
| `Gemini.SummaryLines` | services/gemini.ts:93 | one summary line per session, in order, line i labelled "Session i+1" |
| `Gemini.PlanLines` | services/gemini.ts:145 | one plan line per session, in order, line i labelled "Session i+1" |
| `Gemini.SummaryRequest` | services/gemini.ts:91-93 | no request exactly when the log is empty; `GenerateExecutiveSummary` calls the service only on a request |
| `Gemini.PlanRequest` | services/gemini.ts:143-145 | no request exactly when the log is empty; `GenerateComprehensivePlan` calls the service only on a request |
| `Gemini.GenerateExecutiveSummary` | services/gemini.ts:90-140 | an empty log yields "" without a call; a failure the fixed failure text; an answer the cleaned text ("" when absent) |
| `Gemini.GenerateComprehensivePlan` | services/gemini.ts:142-189 | an empty log yields "" without a call; a failure the fixed failure text; an answer the cleaned text ("" when absent) |
| `Gemini.NatToStringSingleLine` | services/gemini.ts:93 | a session number holds no line feed |
| `Gemini.SummaryLineSingleLine` | services/gemini.ts:93 | a summary line holds no line feed when the statement, the feedback and the printed part of the analysis hold none |
| `Gemini.PlanLineSingleLine` | services/gemini.ts:145 | a plan line holds no line feed when the plan holds none |
| `Gemini.SessionTextLines` | services/gemini.ts:93 | for a non-empty log in which no statement, feedback or first 100 characters of an analysis holds a line feed, the summary serialisation splits on "\n" back into exactly the per-session lines |
| `Gemini.PlansTextLines` | services/gemini.ts:145 | for a non-empty log in which no plan holds a line feed, the plan serialisation splits on "\n" back into exactly the per-session lines |
| `CaseRecords.DefaultClientInfo` | App.tsx:244-250 | definition: the empty client info with gender 未说明, the initial and the reset value (App.tsx:413); used in `App.constructor` and `App.Reset` |
| `CaseRecords.FindIndex` | App.tsx:356 | the first position holding the id, or -1 exactly when no entry holds it |
| `CaseRecords.Upsert` | App.tsx:356-363 | the entry with the id is replaced in place and nothing else moves; with no entry the snapshot is prepended |
| `CaseRecords.UpsertKeepsUnique` | App.tsx:356-363 | saving keeps at most one archive per id |
| `CaseRecords.UpsertThenFind` | App.tsx:356-363 | after saving, the list holds the snapshot under its id |
| `CaseRecords.UpsertTwice` | App.tsx:356-363 | saving the same case twice equals saving once with the later snapshot (no duplicate, same length) |
| `CaseRecords.RemoveById` | App.tsx:397 | exactly the entries without the id remain; with no such entry the list is unchanged |
| `CaseRecords.RemoveByIdConcat` | App.tsx:397 | removal keeps relative order: it distributes over concatenation |
| `CaseRecords.RemoveByIdFacts` | App.tsx:397 | after removal no entry holds the id, and at most one archive per id still holds |
| `CaseRecords.RemoveKeepsUnique` | App.tsx:397 | removal keeps at most one archive per id |
| `CaseRecords.ReplaceById` | App.tsx:314 | every record with the edited id becomes the edited record; the others, the length and the order stay |
| `CaseRecords.ReplaceByIdFrame` | App.tsx:314 | a consistent edit keeps each position's id, timestamp and mode, and saving it twice equals once |
| `CaseRecords.WithField` | App.tsx:74-110 | the edit dialog changes the one content field and keeps id, timestamp, mode and the other fields |
| `CaseRecords.AppendKeepsIdsIncreasing` | App.tsx:455-465 | appending a record with a later clock reading keeps ids increasing, hence distinct |
| `CaseRecords.Merge` | App.tsx:320 | object spread: each field the patch holds wins; each it lacks keeps the old value |
| `CaseRecords.MergeFacts` | App.tsx:320 | the same patch twice equals once; a full patch replaces outright; an empty patch changes nothing |
| `AppState.AppAnalysisFailure` | App.tsx:431 | definition: the controller's own analysis text when the request rejects, distinct from the service's in English; used in `App.CompleteAnalysis` |
| `AppState.App.constructor` | App.tsx:239-269 | initial state: intake view, Chinese, no archives, no case id, default client with gender 未说明, empty log and staging, CBT mode |
| `AppState.App.Mount` | App.tsx:276-286 | a parsed stored list replaces the archive list; a missing or malformed blob leaves it |
| `AppState.App.ToggleLanguage` | App.tsx:308-310 | the language flips, and nothing else changes |
| `AppState.App.SetStaging` | App.tsx:853-893 | exactly the named staging field takes the typed value |
| `AppState.App.SetMode` | App.tsx:834 | only the analysis mode changes |
| `AppState.App.AddSession` | App.tsx:453-471 | a blank statement changes nothing; otherwise one record of the staged values and mode goes at the end, earlier records stay, staging empties, and ids stay increasing under a later clock |
| `AppState.App.OpenSessionEditor` | App.tsx:780-790 | the chosen record becomes the draft |
| `AppState.App.EditDraft` | App.tsx:74-110 | typing changes one content field of the draft and keeps its id, timestamp and mode |
| `AppState.App.CloseSessionEditor` | App.tsx:1094 | the edit dialog closes |
| `AppState.App.SaveEditedSession` | App.tsx:312-316 | without a draft the log is unchanged; otherwise records with its id become it, the rest and the order stay, a consistent draft keeps every id, timestamp and mode, and the dialog closes |
| `AppState.App.EditClientInfo` | App.tsx:535-568 | intake typing merges the field into the client info |
| `AppState.App.OpenReportSection` | App.tsx:940-1031 | each section editor opens with the section's current value; the plan editor opens only once a plan exists |
| `AppState.App.CloseReportSection` | App.tsx:1103 | the section editor closes |
| `AppState.App.SaveReportSection` | App.tsx:318-329 | only the field the section names changes ('info' merge, 'complaint' problem, 'summary', 'plan'), other kinds change nothing, the log is untouched, and the editor closes |
| `AppState.App.ArchiveId` | App.tsx:343 | the current case id unless absent or empty, else the decimal clock reading; never empty |
| `AppState.App.Snapshot` | App.tsx:344-353 | the archive carries the whole working case, the id and the date |
| `AppState.App.SaveArchive` | App.tsx:337-367 | no client name changes nothing; otherwise upsert of the snapshot, the case id becomes the archive id, the stored list equals the list, the list holds the snapshot under its id, and ids stay unique |
| `AppState.App.LoadArchive` | App.tsx:378-392 | confirmed: the working case and case id come from the archive and the session view opens, with language and archives untouched; declined: nothing changes |
| `AppState.App.DeleteArchive` | App.tsx:394-402 | confirmed: entries with the id go and the order stays, the stored list equals the list, the case id clears exactly when it was the deleted one, and the working case is untouched; declined: nothing changes |
| `AppState.App.NewCase` | App.tsx:404-410 | resets exactly when the log is empty or the user confirms; archives, language and mode are untouched |
| `AppState.App.Reset` | App.tsx:412-419 | default client info, empty log, summary and plan, no case id, intake view |
| `AppState.App.StartAnalysis` | App.tsx:422-424 | a blank statement starts nothing; otherwise the busy flag rises and the request carries statement, mode and language |
| `AppState.App.CompleteAnalysis` | App.tsx:425-434 | resolved: the staged analysis and plan are the service's (clean, or the fallback plan); rejected: only the analysis becomes the controller's failure text; the flag drops |
| `AppState.App.StartSummary` | App.tsx:437-439 | an empty log starts nothing; otherwise the flag rises and the request carries log, client and language |
| `AppState.App.CompleteSummary` | App.tsx:440-442 | the summary is the service's result (failure text or clean text) and the flag drops |
| `AppState.App.StartPlan` | App.tsx:445-447 | an empty log starts nothing; otherwise the flag rises and the request carries log, client and language |
| `AppState.App.CompletePlan` | App.tsx:448-450 | the plan is the service's result (failure text or clean text) and the flag drops |
| `AppState.App.EnterSession` | App.tsx:574 | the session view opens only when the client has a name |
| `AppState.App.GoToArchives` | App.tsx:494 | the archive view opens from anywhere |
| `AppState.App.GoToReport` | App.tsx:486 | the report view opens from anywhere |
| `AppState.App.BackToSession` | App.tsx:1068 | the report's back button returns to the session view |
| `AppState.App.MobileSessionTab` | App.tsx:478 | the session view when the log is non-empty, else intake |
| `AppState.SaveThenLoad` | App.tsx:337-392 | saving a named case and opening its entry gives back the same working case as the current one |
| `AppState.DeleteCurrentThenSave` | App.tsx:337-402 | deleting the current case and saving again files it as a new front entry under the fresh clock id |
| `AppState.OpenAndSaveUnedited` | App.tsx:318-329 | opening any report section (the plan once one exists) and saving it unedited leaves the client info, the summary and the plan as they were, closes the editor, and touches no other field |

## Left out

- Rendering: all JSX markup, styling, scrolling, the save-button text flash and
  the edit dialogs' layout. None of it decides state; the dialogs' effect on
  state is modelled through `EditDraft` and `SaveReportSection`.
- PDF export (`window.print`). It changes no state.
- Browser dialogs: `window.confirm` is a `confirmed` parameter. `alert` on a
  missing name is a no-op in the model.
- `localStorage`, `JSON.stringify` and `JSON.parse`. The persisted list is the
  field `stored`, and start-up receives "missing", "malformed" or a parsed list.
  A parsed value that is not an archive list is not modelled.
- `Date.now()` and `toLocaleString()` are parameters. Distinct session ids need
  a later clock reading, which `AddSession` takes as a hypothesis.
- The text-generation client and the prompt texts. A call's outcome is a `Reply`
  parameter, so `clientInfo` (used only inside prompts) does not affect results.
- The ordering of overlapping asynchronous requests and case switches. Each
  request is a `Start…`/`Complete…` pair. The handlers do not check the busy
  flags, so nothing here stops a second start.
- The locale table. Only the failure and fallback texts the code writes inline
  are modelled.
- `JsStrings.Prefix`: characters outside the Basic Multilingual Plane (emoji,
  for example). A `char` here is a Unicode scalar value. ECMAScript counts two
  UTF-16 code units for such a character, so `substring(0, 100)` may keep fewer
  characters than `Prefix` and may cut a surrogate pair. `Prefix` counts each
  character once; this is not modelled.
- `Gemini.CleanText`: the result is described by the properties above and by
  equations on markup-free and example texts. They do not fix every output
  character; idempotence is disproved rather than promised.
