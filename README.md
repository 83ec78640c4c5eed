# AI Shorts pipeline — a Dafny model of its deterministic core

The application turns a YouTube link (or an uploaded file) into a short
vertical clip. It runs in three stages:

- Stage A (`Step_2` … `Step_7`) checks the link, fetches metadata and prepares a transcript.
- Stage B (`Step_8` … `Step_14`) picks a highlight, cuts the clip, writes a narrator script with overlay captions, and produces thumbnails and SEO data.
- Stage C fetches audience comments, which the comment panel can answer.

A large language model produces the creative content. This project models
the deterministic logic around that content, in four parts:

- **The step pipeline controller** (App.tsx, with translations.ts and types.ts).
  - `Steps` holds the pure step-list operations: `getSteps`, the map-by-id
    updaters `updateStep` and `addLog`, the relabelling on a language change,
    and the search `handleError` performs.
  - `Pipeline.PipelineController` is the component's state: the step list,
    the overall status, the nullable result and the stage tag. It is a class
    whose methods perform `runStageA`, `runStageB`, `runStageC`,
    `handleError`, `resetPipeline` and `toggleLang` one state update at a
    time.
  - Every stage run is proved against a specification. The specification
    function `Steps.Advanced` gives the list after a run has made given
    progress. A ghost log of the Active and Completed changes a run makes
    shows that each step goes Active and then Completed, in declared order.
    The Error change of `handleError` is stated on the step list, not
    logged.
  - `Translations` holds the step-definition table and the key sets of the
    interface-string tables. `Types` holds the records.
- **The generator post-processing** (`Gemini`, services/gemini.ts).
  - Video id extraction from parsed URL parts.
  - The fallback records and the id/thumbnail override applied to the
    generator's replies.
  - The highlight-window filter of the voice-script request.
  - The embed link of the edited clip.
  - The comment mapping.
  - The overlay captions: a loop that cuts the script into groups of five
    words, with even timing. The loop is proved against a grouping
    function, and the captions are proved to give the script back and to
    tile the clip.
- **The preview player** (`Preview`, `SynthesizedPlayer` in
  components/ResultView.tsx).
  - The pure caption lookup.
  - The window handed to the player.
  - A `Player` class with the position-update handler of the local-file
    mode, the polled tick of the embedded mode, the play/stop toggle and the
    end of the narration.
- **The comment reply panel** (`Comments`, components/CommentAutomation.tsx).
  - A `CommentBoard` class whose generate, edit and post handlers update
    the comment list by id, gated by the sign-in state.
  - The reply generator and the posting service are oracles; their answers
    arrive as parameters.

A reply of the language model is a `Gemini.Reply<T>`, one of three cases:

- `Parsed(value)`: the parsed text;
- `NoText`: an empty response;
- `Failed`: the request threw or `JSON.parse` threw.

`new URL(...)`, JavaScript's number-to-text conversions
(`Pipeline.NumberText`), `URL.createObjectURL` and the random comment
timestamps are also parameters. Times and highlight offsets are `real`.

Where the code and the written design of the system differ, the model
follows the code:

- Captions are found over closed intervals (`start <= t <= end`), not
  half-open ones.
- The embedded-mode tick resets its epoch only after an overrun, and that
  tick still uses the overrun elapsed time. It does not take the elapsed
  time modulo the window length.
- Stopping playback shows the first caption (local file) or leaves the
  caption as it was (embedded player); it does not clear it.
- `handleError` searches the step list captured before the run
  (App.tsx:335). The failing step can therefore stay Active without an
  error line. Both the snapshot behaviour and the current-list behaviour
  are stated as lemmas.
- Stage A publishes its result only at `Step_7`, not step by step.
- `runStageB` checks only that a result exists, not the status. It appends
  its steps after the existing ones, so a rerun duplicates step ids, and
  the updates by id then reach the old steps too.
- `resetPipeline` is allowed in any state.

## Model

| member | source | states |
|---|---|---|
| Translations.Definition | translations.ts:182-235 | `STEP_DEFINITIONS[id]?.[lang]` is present exactly for the ids in the table, and then is that language's entry |
| Translations.StepDefinitionKeys | translations.ts:182-235 | the table's keys are exactly the thirteen ids `Step_2` … `Step_14` |
| Translations.DefinedStepIdsDistinct | translations.ts:183-234 | the thirteen step ids are distinct |
| Translations.StepDefinitionsFilled | translations.ts:182-235 | every entry has a non-empty label and description in both languages |
| Translations.TranslationKeysAgree | translations.ts:4-180 | the English and Korean interface tables define the same 71 keys, so a lookup by key succeeds in either language |
| Steps.GetSteps | App.tsx:34-42 | one step per id, in the order of the ids; each is Pending with no logs; the label falls back to the id and the description to '' when the table has no entry |
| Steps.StageIdsDefined | App.tsx:44-45 | every Stage A and Stage B id has a table entry, so `getSteps` never falls back for them |
| Steps.StageIdsDistinct | App.tsx:44-45 | the ids of each stage are distinct |
| Steps.UpdateStep | App.tsx:124-126 | length and order are kept; every step with the id, duplicates included, takes the patch; every other step is unchanged |
| Steps.AddLog | App.tsx:128-130 | length and order are kept; every step with the id gets the line appended after its earlier logs; every other step is unchanged |
| Steps.Relabel | App.tsx:71-79 | id, status, logs and order are kept; a step with a table entry takes that entry's label and description; a step without one is unchanged |
| Steps.RelabelStep | App.tsx:72-77 | the relabelling of one step: only label and description change, and only when the table has the id |
| Steps.RelabelFresh | App.tsx:71-79 | relabelling a fresh list of stage steps gives the fresh list in the new language |
| Steps.FirstActive | App.tsx:335 | the index of the first Active step; none when no step is Active |
| Steps.MarkError | App.tsx:332-337 | length kept; with no Active step in the searched list, the current list is unchanged |
| Steps.MarkErrorById | App.tsx:332-337 | with an Active step in the searched list, every step of the current list with the first such step's id becomes Error with that step's searched logs plus the message, and every other step is unchanged |
| Steps.MarkErrorOnCurrent | App.tsx:332-337 | when the handler searches the current list, whose only Active step is the failing one, that step becomes Error with the message after its logs, and every other step is unchanged |
| Steps.MarkErrorOnIdleSnapshot | App.tsx:332-337 | when the handler searches a list with no Active step (the list from before the run), the current list is left unchanged |
| Steps.LifecycleOrder | App.tsx:193-241 | in a clean run the i-th step goes Active and then Completed, before the next step starts |
| Steps.AdvancedLog | App.tsx:128-130 | an `addLog` on a run's current step appends the line after the lines the run has logged there |
| Steps.AdvancedUntouched | App.tsx:124-130 | a run leaves unchanged a list that holds none of its ids |
| Steps.AdvancedOneActive | App.tsx:193-298 | a run that completes each step before starting the next leaves at most one step Active |
| Pipeline.TokenPrefix | App.tsx:197 | the first ten characters of the access token (all of a shorter one), or "undefined" without a token |
| Pipeline.DefaultInputAccepted | types.ts:122-130 | the default input's URL passes the Stage A check, and the default input names no local file |
| Pipeline.UrlAccepted | App.tsx:200 | the Stage A check on the URL text (`includes("youtube")` or `includes("youtu.be")`) |
| Pipeline.WatchLinksAccepted | App.tsx:200 | a watch link and a youtu.be link pass the check whatever the video id |
| Pipeline.Step8Lines | App.tsx:255-257 | two lines: "Analyzing engagement metrics..." then the "Target Segment: " line |
| Pipeline.Step9Lines | App.tsx:261-267 | two lines; the first is "Processing Local Video Buffer..." exactly with a local file, and "Accessing Cloud Storage..." exactly without one |
| Pipeline.Step10Lines | App.tsx:274-277 | two lines: "Analyzing visual context..." then the "Script generated (" line, which counts the script in UTF-16 code units |
| Pipeline.StageASuccessSteps | App.tsx:193-241 | a successful Stage A leaves its six steps Completed in declared order. Step_2 carries the sign-in and "Valid URL" lines; Step_3 the id and title; Step_4 the local-file or the two cloud-stream lines; Step_7 nothing |
| Pipeline.StageARejectedOnIdleSnapshot | App.tsx:193-245 | a rejected URL with the handler searching the pre-run list: Step_2 stays Active with at most the sign-in line; the later steps stay Pending with no logs |
| Pipeline.StageARejectedOnCurrent | App.tsx:193-245 | a rejected URL with the handler searching the current list: Step_2 becomes Error with "Invalid URL" as its last line; the later steps stay Pending with no logs |
| Pipeline.StageBProgressDone | App.tsx:255-298 | a successful Stage B completes each of its seven steps |
| Pipeline.StageBSuccessSteps | App.tsx:250-312 | a successful first Stage B leaves the earlier steps untouched and the seven appended steps Completed in declared order |
| Pipeline.StageBRerunTouchesPrior | App.tsx:249-259 | on a rerun, an older step with the id Step_8 is updated too: it ends Completed with the Step_8 lines appended to its old logs |
| Pipeline.AssembleStageB | App.tsx:279-311 | the Stage B record holds the highlights, the metadata's thumbnail, the SEO data, the clip link, the script, and the overlay captions of the script for the first highlight's `end - start` |
| Pipeline.PipelineController.constructor | App.tsx:48-53 | the initial state: Korean, Idle, the fresh Stage A list, no result, stage A |
| Pipeline.PipelineController.UpdateStep | App.tsx:124-126 | the step list becomes `Steps.UpdateStep` of the old list; nothing else changes |
| Pipeline.PipelineController.AddLog | App.tsx:128-130 | the step list becomes `Steps.AddLog` of the old list; nothing else changes |
| Pipeline.PipelineController.ToggleLanguage | App.tsx:71-83 | the language flips, and the steps are relabelled in the new language; status, result and stage are kept |
| Pipeline.PipelineController.Reset | App.tsx:339-344 | from any state: Idle, no result, stage A, and the fresh Stage A list. The language is kept. The new state depends only on the language, so a second reset changes nothing |
| Pipeline.PipelineController.HandleError | App.tsx:332-337 | the status becomes Error; the first Active step of the searched list is marked Error by id in the current list, with the message after that step's searched logs; result and stage are kept |
| Pipeline.PipelineController.Begin | App.tsx:193 | starts the next step of a run: its progress is recorded as Active and one Active transition is logged; when the run started from distinct steps none of which was Active, at most one step is Active |
| Pipeline.PipelineController.RunStep | App.tsx:206-231 | one step becomes Active, logs its lines in order and becomes Completed; the log gains exactly its Active and Completed transitions |
| Pipeline.PipelineController.RunSteps | App.tsx:206-231 | consecutive steps each run as `RunStep`, in declared order |
| Pipeline.PipelineController.Publish | App.tsx:233-240 | Step_7 completes with no lines, and the result is set while it is Active |
| Pipeline.PipelineController.CheckUrl | App.tsx:193-204 | Step_2 is accepted exactly when the URL contains "youtube" or "youtu.be". Accepted, it completes with the sign-in line and "Valid URL: <url>". Rejected, the status becomes Error and the handler records "Invalid URL" on the searched list |
| Pipeline.PipelineController.StageALaterSteps | App.tsx:206-241 | Step_3 … Step_7 complete in order with their lines; the result holds the metadata, the transcript, the file name or '/tmp/source.mp4', and the object URL only when a file is given; status Completed |
| Pipeline.PipelineController.StageASteps | App.tsx:192-245 | Stage A's steps on a fresh list: with an accepted URL, everything completes and the result is set. Otherwise the status is Error, the result stays null and the later steps stay Pending |
| Pipeline.PipelineController.BeginStageA | App.tsx:183-186 | Running, stage A, result cleared, the fresh Stage A list |
| Pipeline.PipelineController.StageARun | App.tsx:182-246 | `runStageA` over any six distinct ids, with the handler searching the pre-run list |
| Pipeline.PipelineController.RunStageA | App.tsx:182-246 | `runStageA`. An accepted URL leaves all six steps Completed in declared order, Completed status, and the result built from the fetched metadata and transcript. A rejected URL gives Error status, a null result, and Step_2 as the only step ever activated |
| Pipeline.PipelineController.HighlightStep | App.tsx:255-259 | Step_8 logs the first highlight's window and completes. With no highlight, it throws the TypeError of reading `start` of undefined, and the status becomes Error |
| Pipeline.PipelineController.CutStep | App.tsx:261-272 | Step_9 logs the local or cloud cut lines and builds the clip link from the metadata's id. Without metadata, it throws the TypeError of reading `id` of null after its lines |
| Pipeline.PipelineController.ScriptStep | App.tsx:274-280 | Step_10 obtains the voice script, logs its length and completes |
| Pipeline.PipelineController.AttachStageB | App.tsx:300-312 | the Stage B record is attached to the result, and the status becomes Completed; the steps are unchanged |
| Pipeline.PipelineController.StageBLaterSteps | App.tsx:282-312 | Step_11 … Step_14 complete in order with their lines, then the record is attached |
| Pipeline.PipelineController.StageBScripted | App.tsx:274-312 | Step_10 … Step_14 complete, and the record with the generated script is attached |
| Pipeline.PipelineController.StageBAfterHighlight | App.tsx:261-316 | after Step_8, the run ends as `StageBEnd` states: an Error at Step_9 without metadata, otherwise all steps completed with the record attached |
| Pipeline.PipelineController.StageBSteps | App.tsx:253-316 | Stage B's steps end as `StageBEnd` states: an empty highlight list stops at Step_8, missing metadata at Step_9 |
| Pipeline.PipelineController.BeginStageB | App.tsx:250-252 | Running, stage B, the fresh Stage B steps appended after the existing list, the result kept |
| Pipeline.PipelineController.StageBRun | App.tsx:250-316 | `runStageB` once a result exists, over any seven distinct ids, with the handler searching the pre-run list |
| Pipeline.PipelineController.RunStageB | App.tsx:248-317 | `runStageB`: nothing changes without a result. Otherwise the Stage B steps are appended and run, and the record is attached only when all seven complete |
| Pipeline.PipelineController.RunStageC | App.tsx:319-330 | nothing changes without a result that has metadata. Otherwise the stage becomes C, and the generated comments are attached with total = their count and replied = 0; status and steps are untouched |
| Gemini.ExtractVideoId | services/gemini.ts:9-24 | the non-empty `v` parameter; else the youtu.be path without its '/'; else the segment after "/shorts/"; else, or on a parse failure, "dQw4w9WgXcQ". Never empty |
| Gemini.ExtractVideoIdRoundTrip | services/gemini.ts:9-24 | a watch link, a youtu.be link and a shorts link built from an id each give that id back |
| Gemini.FetchMockMetadata | services/gemini.ts:55-72 | on every path the id is the extracted one and the thumbnail is `https://img.youtube.com/vi/<id>/maxresdefault.jpg`. A parsed reply keeps its other fields; otherwise the fallback record |
| Gemini.GenerateThumbnail | services/gemini.ts:192-194 | the thumbnail is the metadata's own thumbnail URL; nothing is generated |
| Gemini.ThumbnailOfFetched | services/gemini.ts:192-194 | the thumbnail of fetched metadata is the still image of the extracted video id |
| Gemini.FallbackTranscript | services/gemini.ts:103-107 | exactly five lines, line i spanning [5i, 5i+4] |
| Gemini.FallbackTranscriptOrdered | services/gemini.ts:103-107 | the fallback lines are ascending and do not overlap |
| Gemini.GenerateMockTranscript | services/gemini.ts:101-107 | the parsed reply, [] on an empty response, the fallback transcript on an error |
| Gemini.GenerateHighlights | services/gemini.ts:137-140 | the parsed reply; otherwise a single window [0, 30] |
| Gemini.WithinMembers | services/gemini.ts:144-145 | the filter keeps exactly the transcript lines with `start >= h.start` and `end <= h.end` |
| Gemini.WithinAppend | services/gemini.ts:144-147 | the filter keeps the original order |
| Gemini.RelevantText | services/gemini.ts:144-147 | the request text: "" when no line lies inside the window, the one line's text when exactly one does |
| Gemini.RelevantTextAppend | services/gemini.ts:144-147 | the request text of two transcript parts, each with a line in the window, is the first part's text, a space, then the second part's |
| Gemini.GenerateVoiceScript | services/gemini.ts:158-160 | a non-empty reply text is returned as is; an empty response gives the language's fallback sentence, which is not empty; the result is "" exactly when the request failed |
| Gemini.ClipBounds | services/gemini.ts:187-188 | the floor of the start and the ceiling of the end, so the whole-second window contains the highlight, and start <= end whenever the highlight's start <= end |
| Gemini.GenerateEditedClip | services/gemini.ts:186-190 | a link exists exactly when there is a highlight. It is the embed link of the video id, with `start` and `end` set to `ClipBounds` of the first highlight, the fixed player flags, and `&playlist=<id>` at the end |
| Gemini.EditedClipFirstOnly | services/gemini.ts:186-190 | only the first highlight shapes the link: dropping the others gives the same link |
| Gemini.EditedClipWindow | services/gemini.ts:186-190 | for a highlight with 0 <= start <= end, the link's `start` and `end` read back as whole seconds s <= e with s <= start < s + 1 and e - 1 < end <= e |
| Gemini.GenerateSeoData | services/gemini.ts:230-240 | the parsed reply, else the fixed fallback record |
| Gemini.CommentIdsDistinct | services/gemini.ts:274 | comment ids `cm_i` of different positions differ |
| Gemini.GenerateMockComments | services/gemini.ts:272-283 | one comment per raw item, in order, with id `cm_i`, no reply and `isReplied` false, author, text, likes and sentiment copied; [] without a parsed reply |
| Gemini.GenerateCommentReply | services/gemini.ts:295-297 | never empty: a non-empty reply text as is, the language's fallback line for an empty response, "Thanks!" on an error |
| Gemini.Groups | services/gemini.ts:169-176 | groups of the words, each of one to five words, all but the last of exactly five |
| Gemini.GroupsFlatten | services/gemini.ts:169-176 | grouping keeps every word, in order |
| Gemini.ChunkTexts | services/gemini.ts:165-176 | a script always gives at least one caption text, because splitting never yields an empty list |
| Gemini.Timed | services/gemini.ts:178-183 | caption i of n spans [i·d/n, (i+1)·d/n] |
| Gemini.CollectChunks | services/gemini.ts:166-176 | the loop that pushes words and flushes every five yields the joined groups of the words |
| Gemini.GenerateOverlaySubtitles | services/gemini.ts:164-184 | the method's captions are the overlay captions of the script for the duration |
| Gemini.OverlayTextRoundTrip | services/gemini.ts:164-184 | joining the caption texts with single spaces gives back the script |
| Gemini.OverlayTiles | services/gemini.ts:178-183 | for a non-negative duration, the captions tile [0, duration]: the first starts at 0, the last ends at the duration, neighbours share boundaries |
| Gemini.TimedTiles | services/gemini.ts:178-183 | evenly timed captions over a non-negative duration tile it |
| Text.JoinSplit | services/gemini.ts:165 | joining the pieces of a one-character split gives back the string |
| Text.Split | services/gemini.ts:165 | `split(c)` gives at least one piece, and no piece holds the separator |
| Text.Join | services/gemini.ts:172 | `join(c)` of no pieces is ""; otherwise the first piece leads the result |
| Text.IndexOf | services/gemini.ts:17 | the first occurrence of the separator, present exactly when the text contains it |
| Text.Contains | App.tsx:200 | `includes`: the empty string is in every string, and nothing longer than the text is |
| Text.Utf16Length | App.tsx:277 | `length` in UTF-16 code units: between the number of characters and twice that, and equal to it when every character lies in the Basic Multilingual Plane |
| Text.SecondPiece | services/gemini.ts:17 | `split(sep)[1]`: the text after the first separator, up to the first later occurrence that starts after it (no occurrence starts inside the piece) or the end |
| Preview.FindCaption | components/ResultView.tsx:87 | the index of the first caption whose closed interval holds t; none when no caption holds it |
| Preview.ChainCovers | components/ResultView.tsx:87 | with contiguous captions, every t from the first start to the last end finds a caption |
| Preview.TilingCaptionsFound | components/ResultView.tsx:87 | with captions that tile [0, D], every t in [0, D] finds one, and at a shared boundary the earlier caption wins |
| Preview.RelativeTime | components/ResultView.tsx:86 | `max(0, pos - start)`: never negative, and 0 at or before the window start |
| Preview.LocalCaption | components/ResultView.tsx:86-93 | the matched caption. Without a match, the first caption's text (or "") when t < 0.5; otherwise the text on screen is left as it was |
| Preview.EmbeddedCaption | components/ResultView.tsx:65-66 | the matched caption, else the first caption's text, else "" |
| Preview.PreviewWindow | components/ResultView.tsx:308-309 | [0, 10] without a highlight. Otherwise the first highlight's start, and its end unless that end is 0, which becomes 10 |
| Preview.ModeFor | components/ResultView.tsx:55 | local-file mode exactly when the local file URL is present and non-empty, embedded mode otherwise |
| Preview.WrappedPosition | components/ResultView.tsx:75-83 | a position at or past the window end goes back to the window start; any other is kept |
| Preview.OverlayFillsWindow | components/ResultView.tsx:302-309 | the overlay captions of a highlight with start <= end and a non-zero end find a caption at every relative time of its preview window |
| Preview.Player.constructor | components/ResultView.tsx:46-99 | not playing. In local-file mode, the position is at the window start, the video paused, and the first caption shown; in embedded mode, no caption |
| Preview.Player.TimeUpdate | components/ResultView.tsx:73-94 | a position at or past the end wraps to the start and resumes if playing (pauses otherwise); the caption is the local lookup at `max(0, pos - start)` after the wrap |
| Preview.Player.Tick | components/ResultView.tsx:57-67 | the epoch moves to now only when the elapsed time exceeds the window length; the caption is the embedded lookup at the unreset elapsed time |
| Preview.Player.PlayPreview | components/ResultView.tsx:105-129 | toggles playing. Local file: seeks to the window start and plays or pauses, and stopping shows the first caption. Embedded: starting sets the epoch to now |
| Preview.Player.SpeechEnded | components/ResultView.tsx:116-119 | the narration's end stops playback and pauses the video; in local-file mode a stop seeks back to the start and shows the first caption |
| Preview.LoopRestartsCaptions | components/ResultView.tsx:75-93 | for any window, when the video reports a position at or past the end, the handler seeks back to the start, and captions starting at 0 show their first caption again |
| Comments.SetReply | components/CommentAutomation.tsx:29-31 | length and order are kept; every comment with the id gets the reply; the others are unchanged |
| Comments.MarkReplied | components/CommentAutomation.tsx:46-48 | length and order are kept; every comment with the id becomes replied; the others are unchanged |
| Comments.FindFrom | components/CommentAutomation.tsx:39 | the first index at or after `from` holding the id; none when there is none |
| Comments.FindComment | components/CommentAutomation.tsx:39 | `find` by id: none exactly when no comment has the id, otherwise a comment of the list with the id |
| Comments.SetReplyKeeps | components/CommentAutomation.tsx:29-31 | setting a reply keeps every id and every `isReplied` flag |
| Comments.MarkRepliedKeeps | components/CommentAutomation.tsx:46-48 | marking keeps every id, and no comment stops being replied |
| Comments.MarkRepliedExactly | components/CommentAutomation.tsx:46-48 | after marking, a comment is replied exactly when its id matches or it was replied already; no other field changes |
| Comments.SetReplyOverwrites | components/CommentAutomation.tsx:128 | a second edit of the same comment replaces the first |
| Comments.MarkRepliedIdempotent | components/CommentAutomation.tsx:46-48 | marking the same id twice is marking it once |
| Comments.SetReplyCommutes | components/CommentAutomation.tsx:29-31 | replies set on different ids do not interfere, in either order |
| Comments.FindAfterSetReply | components/CommentAutomation.tsx:39 | after a reply is set, `find` returns the comment it found before, carrying that reply |
| Comments.FindFromSetReply | components/CommentAutomation.tsx:39 | setting a reply does not move the search result from any position |
| Comments.FindFromMarkReplied | components/CommentAutomation.tsx:39 | marking does not move the search result from any position |
| Comments.FindAfterMarkReplied | components/CommentAutomation.tsx:39 | after a post, `find` returns the same comment, now replied |
| Comments.GeneratedReplyPostable | components/CommentAutomation.tsx:21-54 | a generated reply is never empty, so a comment that exists and has had a reply generated can be posted |
| Comments.PostOutcomeOf | components/CommentAutomation.tsx:39-51 | posted exactly when the comment exists, has a non-empty reply and the service accepts. Refused exactly when it exists with a reply and the service refuses |
| Comments.PostFailureAlert | components/CommentAutomation.tsx:50 | the alert for a refused post, in the panel's language, is never empty |
| Comments.CommentBoard.constructor | components/CommentAutomation.tsx:17-19 | the panel starts from the given comments, with nothing loading or posting |
| Comments.CommentBoard.GenerateReply | components/CommentAutomation.tsx:21-33 | signed out: the sign-in request is raised and nothing changes. Signed in: the generated reply is set on the comments with the id and the loading marker is cleared. Ids and replied flags are kept |
| Comments.CommentBoard.EditReply | components/CommentAutomation.tsx:128 | the typed text becomes the reply of the comments with the id; nothing else changes |
| Comments.CommentBoard.PostReply | components/CommentAutomation.tsx:35-54 | signed out: nothing changes. Signed in: the comments are marked exactly when the outcome is Posted, the failure alert is raised exactly when it is Refused, and the posting marker is cleared. No comment stops being replied |

## Left out

- Network and model I/O. The calls to the language model, `JSON.parse`, the sign-in service (services/auth.ts) and `AuthService.postReply` are replaced by their outcomes, passed as parameters (`Gemini.Reply`, `AuthState`, `posted`). The prompt texts are not modelled.
- URL parsing. `new URL(...)` is replaced by its parsed parts (`Gemini.UrlParts`), or None when it throws.
- Number formatting. JavaScript's `${x}` and `toFixed` are the opaque `Pipeline.NumberText` parameter, so the log lines that contain numbers are equal only up to that formatting.
- The random comment timestamps. They are the `stamp` parameter of `Gemini.GenerateMockComments`.
- Timers and async mechanics: the `setTimeout` delays, the `setInterval` of the embedded preview, `Date.now()`, React's batching and effect re-subscription. Each stage run is one straight-line sequence, and time is a parameter of `Preview.Player.Tick`. Handlers interleaving across awaits is not modelled.
- Rendering. The JSX of every component is not part of this model: the locked panel, the buttons, InputForm.tsx, PipelineStatus.tsx and Tooltip.tsx.
- The download handlers, login/logout and project import in App.tsx, and `handleDownload` in ResultView.tsx: browser and network APIs.
- The interface strings of the `TRANSLATIONS` tables. Only their key sets are modelled, not the display strings.
- Speech synthesis and the `<video>` element's own playback. The player keeps a position and a paused flag. `play()` rejecting is not modelled.
- NoHighlightMessage, NoMetadataMessage: the `error.message` text of the TypeError thrown on an empty highlight list or a null metadata record is V8's wording; other JavaScript engines word it differently.
- IEEE double arithmetic. Times are `real`, so equalities such as "the last caption ends at the duration" hold exactly here but may be off by rounding in the source.
- Comments.CommentBoard.GenerateReply: `onLoginRequest()` is modelled as the returned flag `loginRequested`. The generator's prompt inputs (the comment text and sentiment) are not modelled.
- Pipeline.PipelineController.HandleError: the stale closure over `steps` is modelled by passing the searched list explicitly. The run methods pass the list from before the run.
- `generateShoppingSummary` is unused by the runs; the record's product summaries are always empty.
