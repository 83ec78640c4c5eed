/**
 * The step-pipeline controller of the app component (App.tsx): the step list,
 * the overall status, the accumulated result and the stage tag, and the three
 * stage runs that drive them. Every collaborator (URL parsing, the generator's
 * replies, `URL.createObjectURL`, number formatting) arrives as a parameter;
 * the awaited delays are left out, so each run is one straight-line sequence.
 */
module Pipeline {
  import opened Wrappers
  import opened Types
  import opened Text
  import opened Translations
  import opened Steps
  import Gemini

  datatype Stage = A | B | C

  /** JavaScript's number-to-text conversions, which the model takes as given: `${x}` and `x.toFixed(d)`. */
  datatype NumberText = NumberText(show: real -> string, fixed: (real, nat) -> string)

  /** The Stage A check: the URL mentions "youtube" or "youtu.be". */
  predicate UrlAccepted(url: string) {
    Contains(url, "youtube") || Contains(url, "youtu.be")
  }

  /** Watch links and youtu.be links pass the Stage A check, whatever the video id. */
  lemma WatchLinksAccepted(id: string)
    ensures UrlAccepted("https://www.youtube.com/watch?v=" + id)
    ensures UrlAccepted("https://youtu.be/" + id)
  {
    ContainsMiddle("https://www.", "youtube", ".com/watch?v=" + id);
    assert "https://www." + "youtube" + (".com/watch?v=" + id) == "https://www.youtube.com/watch?v=" + id;
    ContainsMiddle("https://", "youtu.be", "/" + id);
    assert "https://" + "youtu.be" + ("/" + id) == "https://youtu.be/" + id;
  }

  /** `auth.accessToken?.substring(0, 10)` inside a template: the first ten characters, or "undefined". */
  function TokenPrefix(token: Option<string>): (r: string)
    ensures token.None? ==> r == "undefined"
    ensures token.Some? ==> r <= token.value && |r| == if |token.value| < 10 then |token.value| else 10
  {
    match token
    case None => "undefined"
    case Some(t) => if |t| < 10 then t else t[..10]
  }

  /** The Step_2 log line of a signed-in run, if any. */
  function AuthLines(auth: AuthState): seq<string> {
    if auth.isAuthenticated then ["Authenticated Request (Bearer " + TokenPrefix(auth.accessToken) + "...)"] else []
  }

  /** The Step_4 log lines: a local file is reported with its size in MB, otherwise the cloud-stream lines. */
  function SourceLines(file: Option<SourceFile>, fmt: NumberText): seq<string> {
    match file
    case Some(f) => [
      "Source Verification: Local File Detected.",
      "File: " + f.name + " (" + fmt.fixed(f.size as real / 1024.0 / 1024.0, 2) + "MB)",
      "Input stream active: Ready for processing."]
    case None => ["No local file. Initiating cloud stream...", "Virtual source acquired."]
  }

  /** `videoPath` of the Stage A result: the file's name or the placeholder path. */
  function VideoPath(file: Option<SourceFile>): string {
    if file.Some? then file.value.name else "/tmp/source.mp4"
  }

  /** What a successful Stage A does to each of its steps, in order. */
  function StageAProgress(input: UserInput, auth: AuthState, md: VideoMetadata, fmt: NumberText): seq<Progress> {
    [Done(AuthLines(auth) + ["Valid URL: " + input.youtubeUrl])] + DoneAll(StageALines(input, md, fmt)) + [Done([])]
  }

  /** The lines a successful Stage A logs on Step_3 .. Step_6. */
  function StageALines(input: UserInput, md: VideoMetadata, fmt: NumberText): seq<seq<string>> {
    [["ID: " + md.id + " | Title: " + md.title],
     SourceLines(input.sourceFile, fmt),
     ["Extracting audio track..."],
     []]
  }

  /** Where a rejected URL leaves Stage A: Step_2 Active with at most the sign-in line. */
  function StageARejected(auth: AuthState): seq<Progress> {
    [Progress(Active, AuthLines(auth))]
  }

  /** The TypeError messages of reading a field of `undefined` or of `null`. */
  const NoHighlightMessage := "Cannot read properties of undefined (reading 'start')"
  const NoMetadataMessage := "Cannot read properties of null (reading 'id')"

  function Step8Lines(h: HighlightSegment, fmt: NumberText): (r: seq<string>)
    ensures |r| == 2 && r[0] == "Analyzing engagement metrics..."
    ensures "Target Segment: " <= r[1]
  {
    ["Analyzing engagement metrics...",
     "Target Segment: " + fmt.show(h.start) + "s - " + fmt.show(h.end) + "s"]
  }

  function Step9Lines(localFileUrl: Option<string>, h: HighlightSegment, fmt: NumberText): (r: seq<string>)
    ensures |r| == 2
    ensures r[0] == "Processing Local Video Buffer..." <==> Truthy(localFileUrl)
    ensures r[0] == "Accessing Cloud Storage..." <==> !Truthy(localFileUrl)
  {
    if Truthy(localFileUrl) then
      ["Processing Local Video Buffer...",
       "Applying Cut: " + fmt.fixed(h.start, 1) + "s to " + fmt.fixed(h.end, 1) + "s"]
    else
      ["Accessing Cloud Storage...",
       "Slicing video frame: " + fmt.show(h.start) + " to " + fmt.show(h.end) + "..."]
  }

  function Step10Lines(script: string, fmt: NumberText): (r: seq<string>)
    ensures |r| == 2 && r[0] == "Analyzing visual context..."
    ensures r[1] == "Script generated (" + fmt.show(Utf16Length(script) as real) + " chars)"
  {
    ["Analyzing visual context...", "Script generated (" + fmt.show(Utf16Length(script) as real) + " chars)"]
  }

  /** What a successful Stage B does to each of its steps, in order. */
  function StageBProgress(localFileUrl: Option<string>, h: HighlightSegment, script: string, fmt: NumberText): seq<Progress> {
    [Done(Step8Lines(h, fmt))] + [Done(Step9Lines(localFileUrl, h, fmt))] + [Done(Step10Lines(script, fmt))]
      + DoneAll(StageBTailLines)
  }

  /** The lines Step_11 .. Step_14 log. */
  const StageBTailLines: seq<seq<string>> :=
    [["Synthesizing Neural Audio...", "Mixing audio tracks..."], [], [], ["Finalizing build..."]]

  /** A successful Stage B completes each of its seven steps. */
  lemma StageBProgressDone(localFileUrl: Option<string>, h: HighlightSegment, script: string, fmt: NumberText)
    ensures |StageBProgress(localFileUrl, h, script, fmt)| == 7 && AllDone(StageBProgress(localFileUrl, h, script, fmt))
  {
    assert |StageBTailLines| == 4;
  }

  /** Where an empty highlight list stops Stage B: Step_8 Active with its first line. */
  function StageBNoHighlight(): seq<Progress> {
    [Progress(Active, ["Analyzing engagement metrics..."])]
  }

  /** Where a result without metadata stops Stage B: Step_8 done, Step_9 Active with its two lines. */
  function StageBNoMetadata(localFileUrl: Option<string>, h: HighlightSegment, fmt: NumberText): seq<Progress> {
    [Done(Step8Lines(h, fmt))] + [Progress(Active, Step9Lines(localFileUrl, h, fmt))]
  }

  /** The Stage B record of a successful run. */
  function StageBRecord(md: VideoMetadata, hs: seq<HighlightSegment>, script: string,
                        seoReply: Gemini.Reply<SeoData>): StageBResult
    requires |hs| > 0
  {
    StageBResult(hs, [Gemini.GenerateThumbnail(md)], [], Gemini.GenerateSeoData(seoReply),
                 Gemini.GenerateEditedClip(md.id, hs).value, script,
                 Gemini.OverlaySubtitles(script, hs[0].end - hs[0].start))
  }

  /**
   * How `runStageB` ends, as (status, steps, result, transition log), from
   * the result `r` and the list `base` it starts from (the old list followed
   * by the fresh steps of the stage ids `ids`): `snapshot` is the list the
   * error handler searches and `before` the transition log so far. An empty
   * highlight list stops at the first step, a result without metadata at the
   * second; otherwise every step completes and the Stage B record is attached.
   */
  function StageBEnd(r: PipelineResult, base: seq<Step>, snapshot: seq<Step>, ids: seq<string>,
                     lang: Language, fmt: NumberText, highlightsReply: Gemini.Reply<seq<HighlightSegment>>,
                     scriptReply: Gemini.Reply<string>, seoReply: Gemini.Reply<SeoData>, before: seq<Transition>)
    : (PipelineStatus, seq<Step>, Option<PipelineResult>, seq<Transition>)
    requires |ids| == 7
  {
    var hs := Gemini.GenerateHighlights(highlightsReply);
    if |hs| == 0 then
      (PipelineStatus.Error, MarkError(Advanced(base, ids, StageBNoHighlight()), snapshot, NoHighlightMessage),
       Some(r), before + [Transition(ids[0], Active)])
    else if r.metadata.None? then
      (PipelineStatus.Error,
       MarkError(Advanced(base, ids, StageBNoMetadata(r.localFileUrl, hs[0], fmt)), snapshot, NoMetadataMessage),
       Some(r), before + Lifecycle([ids[0]]) + [Transition(ids[1], Active)])
    else
      var script := Gemini.GenerateVoiceScript(lang, scriptReply);
      (PipelineStatus.Completed, Advanced(base, ids, StageBProgress(r.localFileUrl, hs[0], script, fmt)),
       Some(r.(stageB := Some(StageBRecord(r.metadata.value, hs, script, seoReply)))), before + Lifecycle(ids))
  }

  /** `StageBEnd` when the result has no metadata: Step_9 throws after its lines. */
  lemma StageBEndNoMetadata(r: PipelineResult, base: seq<Step>, snapshot: seq<Step>, ids: seq<string>,
                            lang: Language, fmt: NumberText, highlightsReply: Gemini.Reply<seq<HighlightSegment>>,
                            scriptReply: Gemini.Reply<string>, seoReply: Gemini.Reply<SeoData>, before: seq<Transition>)
    requires |ids| == 7 && |Gemini.GenerateHighlights(highlightsReply)| > 0 && r.metadata.None?
    ensures
      var h := Gemini.GenerateHighlights(highlightsReply)[0];
      StageBEnd(r, base, snapshot, ids, lang, fmt, highlightsReply, scriptReply, seoReply, before)
      == (PipelineStatus.Error,
          MarkError(Advanced(base, ids, [Done(Step8Lines(h, fmt))] + [Progress(Active, Step9Lines(r.localFileUrl, h, fmt))]),
                    snapshot, NoMetadataMessage),
          Some(r), before + Lifecycle([ids[0]]) + [Transition(ids[1], Active)])
  {
  }

  /** `StageBEnd` of a run whose steps all complete, split as the run performs them. */
  lemma StageBEndCompleted(r: PipelineResult, base: seq<Step>, snapshot: seq<Step>, ids: seq<string>,
                           lang: Language, fmt: NumberText, highlightsReply: Gemini.Reply<seq<HighlightSegment>>,
                           scriptReply: Gemini.Reply<string>, seoReply: Gemini.Reply<SeoData>, before: seq<Transition>)
    requires |ids| == 7 && |Gemini.GenerateHighlights(highlightsReply)| > 0 && r.metadata.Some?
    ensures
      var hs := Gemini.GenerateHighlights(highlightsReply);
      var script := Gemini.GenerateVoiceScript(lang, scriptReply);
      StageBEnd(r, base, snapshot, ids, lang, fmt, highlightsReply, scriptReply, seoReply, before)
      == (PipelineStatus.Completed,
          Advanced(base, ids, [Done(Step8Lines(hs[0], fmt))] + [Done(Step9Lines(r.localFileUrl, hs[0], fmt))]
                              + [Done(Step10Lines(script, fmt))] + DoneAll(StageBTailLines)),
          Some(r.(stageB := Some(StageBRecord(r.metadata.value, hs, script, seoReply)))),
          before + Lifecycle([ids[0]]) + Lifecycle([ids[1]]) + Lifecycle([ids[2]]) + Lifecycle(ids[3..]))
  {
    LifecycleStageB(before, ids);
  }

  /** Two completed steps. */
  lemma AllDoneTwo(p: Progress, q: Progress)
    requires p.status == StepStatus.Completed && q.status == StepStatus.Completed
    ensures AllDone([p] + [q])
  {
  }

  /**
   * The Stage B record as Step_10 .. Step_13 of `runStageB` assemble it: the
   * overlay captions of the `script` for the first highlight's duration,
   * the thumbnail link and the SEO data, next to the highlights `hs` and the
   * clip link `cutUrl`.
   */
  method AssembleStageB(md: VideoMetadata, hs: seq<HighlightSegment>, cutUrl: string, script: string,
                        seoReply: Gemini.Reply<SeoData>) returns (record: StageBResult)
    requires |hs| > 0 && cutUrl == Gemini.GenerateEditedClip(md.id, hs).value
    ensures record == StageBRecord(md, hs, script, seoReply)
  {
    var overlay := Gemini.GenerateOverlaySubtitles(script, hs[0].end - hs[0].start);
    record := StageBResult(hs, [Gemini.GenerateThumbnail(md)], [], Gemini.GenerateSeoData(seoReply), cutUrl, script, overlay);
  }

  /** The default input passes the Stage A URL check and names no local file. */
  lemma DefaultInputAccepted()
    ensures UrlAccepted(DefaultInput.youtubeUrl) && DefaultInput.sourceFile.None?
  {
    ContainsMiddle("https://www.", "youtube", ".com/watch?v=dQw4w9WgXcQ");
  }

  /**
   * A successful Stage A, over its stage ids `ids` (Step_2 .. Step_7), leaves
   * its six steps Completed in declared order, each carrying exactly the
   * lines it logged: the sign-in and URL lines on Step_2, the id and title on
   * Step_3, the local-file or cloud-stream lines on Step_4 and nothing on
   * Step_7.
   */
  lemma StageASuccessSteps(ids: seq<string>, input: UserInput, auth: AuthState, md: VideoMetadata, fmt: NumberText,
                           lang: Language)
    requires |ids| == 6 && Distinct(ids)
    ensures
      var r := Advanced(GetSteps(ids, lang), ids, StageAProgress(input, auth, md, fmt));
      && |r| == |ids|
      && (forall i :: 0 <= i < |r| ==> r[i].id == ids[i] && r[i].status == StepStatus.Completed)
      && r[0].logs == AuthLines(auth) + ["Valid URL: " + input.youtubeUrl]
      && r[1].logs == ["ID: " + md.id + " | Title: " + md.title]
      && r[2].logs == SourceLines(input.sourceFile, fmt)
      && r[5].logs == []
  {
    SuccessFresh(GetSteps(ids, lang), ids, input, auth, md, fmt);
  }

  /** `StageASuccessSteps` for any fresh list of the stage ids. */
  lemma SuccessFresh(s: seq<Step>, ids: seq<string>, input: UserInput, auth: AuthState, md: VideoMetadata,
                     fmt: NumberText)
    requires |ids| == 6 && Distinct(ids) && |s| == |ids|
    requires forall i :: 0 <= i < |s| ==> s[i].id == ids[i] && s[i].logs == []
    ensures
      var r := Advanced(s, ids, StageAProgress(input, auth, md, fmt));
      && |r| == |ids|
      && (forall i :: 0 <= i < |r| ==> r[i].id == ids[i] && r[i].status == StepStatus.Completed)
      && r[0].logs == AuthLines(auth) + ["Valid URL: " + input.youtubeUrl]
      && r[1].logs == ["ID: " + md.id + " | Title: " + md.title]
      && r[2].logs == SourceLines(input.sourceFile, fmt)
      && r[5].logs == []
  {
    AdvancedFresh(s, ids, StageAProgress(input, auth, md, fmt));
  }

  /**
   * A rejected URL, when the list searched by the error handler has no Active
   * step (as before any run): Step_2 stays Active with at most the sign-in
   * line and no error line, and the later steps stay Pending with no logs.
   */
  lemma StageARejectedOnIdleSnapshot(ids: seq<string>, auth: AuthState, lang: Language, snapshot: seq<Step>)
    requires |ids| == 6 && Distinct(ids) && NoneActive(snapshot)
    ensures
      var r := MarkError(Advanced(GetSteps(ids, lang), ids, StageARejected(auth)), snapshot, "Invalid URL");
      && |r| == |ids| && r[0].id == ids[0]
      && r[0].status == Active && r[0].logs == AuthLines(auth)
      && forall i :: 1 <= i < |r| ==> r[i].status == Pending && r[i].logs == []
  {
    var cur := Advanced(GetSteps(ids, lang), ids, StageARejected(auth));
    MarkErrorOnIdleSnapshot(cur, snapshot, "Invalid URL");
    AdvancedFresh(GetSteps(ids, lang), ids, StageARejected(auth));
  }

  /**
   * A rejected URL, when the error handler searches the current list
   * instead: Step_2 becomes Error with "Invalid URL" after its lines, and
   * the later steps stay Pending with no logs.
   */
  lemma StageARejectedOnCurrent(ids: seq<string>, auth: AuthState, lang: Language)
    requires |ids| == 6 && Distinct(ids)
    ensures
      var cur := Advanced(GetSteps(ids, lang), ids, StageARejected(auth));
      var r := MarkError(cur, cur, "Invalid URL");
      && |r| == |ids| && r[0].id == ids[0]
      && r[0].status == StepStatus.Error && r[0].logs == AuthLines(auth) + ["Invalid URL"]
      && forall i :: 1 <= i < |r| ==> r[i].status == Pending && r[i].logs == []
  {
    RejectedOnCurrentFresh(GetSteps(ids, lang), ids, auth);
  }

  /** `StageARejectedOnCurrent` for any fresh list of the stage ids. */
  lemma RejectedOnCurrentFresh(s: seq<Step>, ids: seq<string>, auth: AuthState)
    requires |ids| == 6 && Distinct(ids) && |s| == |ids|
    requires forall i :: 0 <= i < |s| ==> s[i].id == ids[i] && s[i].status == Pending && s[i].logs == []
    ensures
      var cur := Advanced(s, ids, StageARejected(auth));
      var r := MarkError(cur, cur, "Invalid URL");
      && |r| == |ids| && r[0].id == ids[0]
      && r[0].status == StepStatus.Error && r[0].logs == AuthLines(auth) + ["Invalid URL"]
      && forall i :: 1 <= i < |r| ==> r[i].status == Pending && r[i].logs == []
  {
    var cur := Advanced(s, ids, StageARejected(auth));
    AdvancedFresh(s, ids, StageARejected(auth));
    assert forall j :: 0 <= j < |cur| ==> cur[j].id == ids[j];
    assert forall j :: 1 <= j < |cur| ==> cur[j].status == Pending;
    MarkErrorOnCurrent(cur, 0, "Invalid URL");
  }

  /**
   * A successful Stage B, over its stage ids `ids` (Step_8 .. Step_14), on a
   * list none of whose ids is a Stage B id (a first run after Stage A): the
   * earlier steps are untouched and the seven appended steps are Completed in
   * declared order.
   */
  lemma StageBSuccessSteps(ids: seq<string>, prior: seq<Step>, lang: Language, localFileUrl: Option<string>,
                           h: HighlightSegment, script: string, fmt: NumberText)
    requires |ids| == 7 && Distinct(ids)
    requires forall j :: 0 <= j < |prior| ==> prior[j].id !in ids
    ensures
      var r := Advanced(prior + GetSteps(ids, lang), ids, StageBProgress(localFileUrl, h, script, fmt));
      && |r| == |prior| + |ids| && r[..|prior|] == prior
      && forall i :: 0 <= i < |ids| ==>
           r[|prior| + i].id == ids[i] && r[|prior| + i].status == StepStatus.Completed
  {
    StageBProgressDone(localFileUrl, h, script, fmt);
    AdvancedAppendedDone(prior, GetSteps(ids, lang), ids, StageBProgress(localFileUrl, h, script, fmt));
  }

  /**
   * A Stage B rerun on a list that still holds an earlier step with the
   * first Stage B id (Step_8): the status updates and log lines reach the
   * earlier step too, which ends Completed with the Step_8 lines appended to
   * its old logs.
   */
  lemma StageBRerunTouchesPrior(ids: seq<string>, prior: seq<Step>, lang: Language, localFileUrl: Option<string>,
                                h: HighlightSegment, script: string, fmt: NumberText, j: nat)
    requires |ids| == 7 && Distinct(ids) && j < |prior| && prior[j].id == ids[0]
    ensures
      var r := Advanced(prior + GetSteps(ids, lang), ids, StageBProgress(localFileUrl, h, script, fmt));
      && r[j].status == StepStatus.Completed && r[j].logs == prior[j].logs + Step8Lines(h, fmt)
  {
    var prog := StageBProgress(localFileUrl, h, script, fmt);
    assert (prior + GetSteps(ids, lang))[j] == prior[j];
    assert Slot(ids, |prog|, ids[0]) == Some(0);
  }

  class PipelineController {
    var lang: Language
    var status: PipelineStatus
    var steps: seq<Step>
    var result: Option<PipelineResult>
    var stage: Stage
    /** The status changes the stage runs have made, in order. */
    ghost var transitions: seq<Transition>

    /** No step is Skipped: the source declares that status but never assigns it. */
    ghost predicate Valid()
      reads this
    {
      forall i :: 0 <= i < |steps| ==> steps[i].status != Skipped
    }

    /** The initial state: Korean, idle, the fresh Stage A list, no result, stage A. */
    constructor()
      ensures Valid()
      ensures lang == Ko && status == Idle && steps == GetSteps(StageAIds, Ko) && result.None? && stage == A
      ensures transitions == []
    {
      lang := Ko;
      status := Idle;
      steps := GetSteps(StageAIds, Ko);
      result := None;
      stage := A;
      transitions := [];
    }

    /** `updateStep`: the steps with that id take the patch. */
    method UpdateStep(id: string, p: Patch)
      requires Valid() && p.status != Some(Skipped)
      modifies this
      ensures Valid()
      ensures steps == Steps.UpdateStep(old(steps), id, p)
      ensures lang == old(lang) && status == old(status) && result == old(result) && stage == old(stage)
      ensures transitions == old(transitions)
    {
      steps := Steps.UpdateStep(steps, id, p);
    }

    /** `addLog`: the steps with that id get the line appended. */
    method AddLog(id: string, line: string)
      requires Valid()
      modifies this
      ensures Valid()
      ensures steps == Steps.AddLog(old(steps), id, line)
      ensures lang == old(lang) && status == old(status) && result == old(result) && stage == old(stage)
      ensures transitions == old(transitions)
    {
      steps := Steps.AddLog(steps, id, line);
    }

    /** `toggleLang` with the relabelling effect it triggers. */
    method ToggleLanguage()
      requires Valid()
      modifies this
      ensures Valid()
      ensures lang == if old(lang) == En then Ko else En
      ensures steps == Relabel(old(steps), lang)
      ensures status == old(status) && result == old(result) && stage == old(stage)
      ensures transitions == old(transitions)
    {
      lang := if lang == En then Ko else En;
      steps := Relabel(steps, lang);
    }

    /** `resetPipeline`: whatever the state, back to idle with the fresh Stage A list. */
    method Reset()
      modifies this
      ensures Valid()
      ensures status == Idle && result.None? && stage == A && steps == GetSteps(StageAIds, lang)
      ensures lang == old(lang) && transitions == old(transitions)
    {
      status := Idle;
      result := None;
      steps := GetSteps(StageAIds, lang);
      stage := A;
    }

    /**
     * `handleError`: the status becomes Error, and the first Active step of
     * `searched` (the list the handler sees) is marked Error with the message.
     */
    method HandleError(message: string, searched: seq<Step>)
      requires Valid()
      modifies this
      ensures Valid()
      ensures status == PipelineStatus.Error && steps == MarkError(old(steps), searched, message)
      ensures lang == old(lang) && result == old(result) && stage == old(stage)
      ensures transitions == old(transitions)
    {
      status := PipelineStatus.Error;
      var active := FirstActive(searched);
      if active.Some? {
        var failing := searched[active.value];
        UpdateStep(failing.id, Patch(Some(StepStatus.Error), Some(failing.logs + [message])));
      }
    }

    /**
     * Starts the next step of a run over `ids`: `base` is the list the run
     * started from and `done` the progress of the steps before, all Completed.
     */
    method Begin(id: string, ids: seq<string>, ghost base: seq<Step>, ghost done: seq<Progress>)
      requires Valid() && Distinct(ids) && |done| < |ids| && id == ids[|done|] && AllDone(done)
      requires steps == Advanced(base, ids, done)
      modifies this
      ensures Valid() && steps == Advanced(base, ids, done + [Progress(Active, [])])
      ensures DistinctIds(base) && NoneActive(base) ==> AtMostOneActive(steps)
      ensures transitions == old(transitions) + [Transition(id, Active)]
      ensures lang == old(lang) && status == old(status) && result == old(result) && stage == old(stage)
    {
      UpdateStep(id, Patch(Some(Active), None));
      AdvancedBegin(base, ids, done);
      transitions := transitions + [Transition(id, Active)];
      if DistinctIds(base) && NoneActive(base) {
        AdvancedOneActive(base, ids, done + [Progress(Active, [])]);
      }
    }

    /** Logs a line on the current step of a run, whose progress so far is `cur`. */
    method Note(id: string, line: string, ids: seq<string>, ghost base: seq<Step>, ghost done: seq<Progress>,
                ghost cur: Progress)
      requires Valid() && |done| < |ids| && id == ids[|done|] && steps == Advanced(base, ids, done + [cur])
      modifies this
      ensures Valid() && steps == Advanced(base, ids, done + [cur.(added := cur.added + [line])])
      ensures transitions == old(transitions)
      ensures lang == old(lang) && status == old(status) && result == old(result) && stage == old(stage)
    {
      AddLog(id, line);
      AdvancedLog(base, ids, done, cur, line);
    }

    /** Completes the current step of a run, whose progress so far is `cur`. */
    method Finish(id: string, ids: seq<string>, ghost base: seq<Step>, ghost done: seq<Progress>, ghost cur: Progress)
      requires Valid() && |done| < |ids| && id == ids[|done|] && steps == Advanced(base, ids, done + [cur])
      modifies this
      ensures Valid() && steps == Advanced(base, ids, done + [cur.(status := StepStatus.Completed)])
      ensures DistinctIds(base) && NoneActive(base) && AllDone(done) ==> NoneActive(steps)
      ensures transitions == old(transitions) + [Transition(id, StepStatus.Completed)]
      ensures lang == old(lang) && status == old(status) && result == old(result) && stage == old(stage)
    {
      UpdateStep(id, Patch(Some(StepStatus.Completed), None));
      AdvancedStatus(base, ids, done, cur, StepStatus.Completed);
      transitions := transitions + [Transition(id, StepStatus.Completed)];
    }

    /** Logs `lines` on the step a run has just started, one `addLog` at a time. */
    method LogAll(id: string, lines: seq<string>, ids: seq<string>, ghost base: seq<Step>, ghost done: seq<Progress>)
      requires Valid() && |done| < |ids| && id == ids[|done|]
      requires steps == Advanced(base, ids, done + [Progress(Active, [])])
      modifies this
      ensures Valid() && steps == Advanced(base, ids, done + [Progress(Active, lines)])
      ensures transitions == old(transitions)
      ensures lang == old(lang) && status == old(status) && result == old(result) && stage == old(stage)
    {
      for k := 0 to |lines|
        invariant Valid() && steps == Advanced(base, ids, done + [Progress(Active, lines[..k])])
        invariant transitions == old(transitions)
        invariant lang == old(lang) && status == old(status) && result == old(result) && stage == old(stage)
      {
        Note(id, lines[k], ids, base, done, Progress(Active, lines[..k]));
        assert lines[..k + 1] == lines[..k] + [lines[k]];
      }
      assert lines[..|lines|] == lines;
    }

    /**
     * One step of a run from start to end: it becomes Active, logs `lines`
     * one `addLog` at a time, and becomes Completed.
     */
    method RunStep(id: string, lines: seq<string>, ids: seq<string>, ghost base: seq<Step>, ghost done: seq<Progress>)
      requires Valid() && Distinct(ids) && |done| < |ids| && id == ids[|done|] && AllDone(done)
      requires steps == Advanced(base, ids, done)
      modifies this
      ensures Valid() && steps == Advanced(base, ids, done + [Done(lines)])
      ensures transitions == old(transitions) + Lifecycle([id])
      ensures lang == old(lang) && status == old(status) && result == old(result) && stage == old(stage)
    {
      ghost var t0 := transitions;
      Begin(id, ids, base, done);
      LogAll(id, lines, ids, base, done);
      Finish(id, ids, base, done, Progress(Active, lines));
      LifecycleOne(t0, id);
    }

    /** Consecutive steps of a run, the i-th logging `ls[i]`; `from` is how many steps came before. */
    method RunSteps(from: nat, ls: seq<seq<string>>, ids: seq<string>, ghost base: seq<Step>, ghost done: seq<Progress>)
      requires Valid() && Distinct(ids) && from == |done| && from + |ls| <= |ids| && AllDone(done)
      requires steps == Advanced(base, ids, done)
      modifies this
      ensures Valid() && steps == Advanced(base, ids, done + DoneAll(ls))
      ensures transitions == old(transitions) + Lifecycle(ids[from..from + |ls|])
      ensures lang == old(lang) && status == old(status) && result == old(result) && stage == old(stage)
    {
      assert done + DoneAll(ls[..0]) == done;
      for k := 0 to |ls|
        invariant Valid() && steps == Advanced(base, ids, done + DoneAll(ls[..k])) && AllDone(done + DoneAll(ls[..k]))
        invariant transitions == old(transitions) + Lifecycle(ids[from..from + k])
        invariant lang == old(lang) && status == old(status) && result == old(result) && stage == old(stage)
      {
        RunStep(ids[from + k], ls[k], ids, base, done + DoneAll(ls[..k]));
        DoneAllNext(done, ls, k);
        assert ids[from..from + k + 1] == ids[from..from + k] + [ids[from + k]];
        LifecycleAppend(ids[from..from + k], [ids[from + k]]);
      }
      assert ls[..|ls|] == ls;
    }

    /** Step_7 of `runStageA`: while it is Active, the result `r` is published. */
    method Publish(id: string, r: PipelineResult, ids: seq<string>, ghost base: seq<Step>, ghost done: seq<Progress>)
      requires Valid() && Distinct(ids) && |done| < |ids| && id == ids[|done|] && AllDone(done)
      requires steps == Advanced(base, ids, done)
      modifies this
      ensures Valid() && steps == Advanced(base, ids, done + [Done([])]) && result == Some(r)
      ensures transitions == old(transitions) + Lifecycle([id])
      ensures lang == old(lang) && status == old(status) && stage == old(stage)
    {
      ghost var t0 := transitions;
      Begin(id, ids, base, done);
      result := Some(r);
      Finish(id, ids, base, done, Progress(Active, []));
      LifecycleOne(t0, id);
    }

    /**
     * Step_2 of `runStageA`: it becomes Active, logs the sign-in line of a
     * signed-in user, and either logs the URL and completes, or rejects it:
     * the error handler, searching `snapshot`, then records "Invalid URL".
     */
    method CheckUrl(input: UserInput, auth: AuthState, snapshot: seq<Step>, ids: seq<string>, ghost base: seq<Step>)
      returns (accepted: bool)
      requires |ids| == 6 && Distinct(ids) && Valid() && steps == base
      modifies this
      ensures accepted == UrlAccepted(input.youtubeUrl)
      ensures Valid() && lang == old(lang) && result == old(result) && stage == old(stage)
      ensures accepted ==>
        && steps == Advanced(base, ids, [Done(AuthLines(auth) + ["Valid URL: " + input.youtubeUrl])])
        && status == old(status)
        && transitions == old(transitions) + Lifecycle([ids[0]])
      ensures !accepted ==>
        && status == PipelineStatus.Error
        && steps == MarkError(Advanced(base, ids, StageARejected(auth)), snapshot, "Invalid URL")
        && transitions == old(transitions) + [Transition(ids[0], Active)]
    {
      ghost var t0 := transitions;
      AdvancedNothing(base, ids);
      Begin(ids[0], ids, base, []);
      ghost var cur := Progress(Active, []);
      if auth.isAuthenticated {
        var line := "Authenticated Request (Bearer " + TokenPrefix(auth.accessToken) + "...)";
        Note(ids[0], line, ids, base, [], cur);
        cur := cur.(added := cur.added + [line]);
        assert [] + [line] == AuthLines(auth);
      }
      assert [] + [cur] == StageARejected(auth);
      accepted := UrlAccepted(input.youtubeUrl);
      if accepted {
        Note(ids[0], "Valid URL: " + input.youtubeUrl, ids, base, [], cur);
        Finish(ids[0], ids, base, [], cur.(added := cur.added + ["Valid URL: " + input.youtubeUrl]));
        assert [] + [cur.(added := cur.added + ["Valid URL: " + input.youtubeUrl]).(status := StepStatus.Completed)]
            == [Done(AuthLines(auth) + ["Valid URL: " + input.youtubeUrl])];
        LifecycleOne(t0, ids[0]);
      } else {
        HandleError("Invalid URL", snapshot);
      }
    }

    /**
     * Step_3 .. Step_7 of `runStageA`, once Step_2 has ended as `first`, with
     * the fetched metadata `md` and the generated `subtitles`.
     */
    method StageALaterSteps(input: UserInput, fmt: NumberText, md: VideoMetadata, subtitles: seq<SubtitleItem>,
                            objectUrl: string, ids: seq<string>, ghost base: seq<Step>, ghost first: Progress)
      requires |ids| == 6 && Distinct(ids) && first.status == StepStatus.Completed
      requires Valid() && steps == Advanced(base, ids, [first])
      modifies this
      ensures Valid() && steps == Advanced(base, ids, [first] + DoneAll(StageALines(input, md, fmt)) + [Done([])])
      ensures result == Some(PipelineResult(Some(md), subtitles, VideoPath(input.sourceFile),
                                            if input.sourceFile.Some? then Some(objectUrl) else None, None, None))
      ensures status == PipelineStatus.Completed
      ensures transitions == old(transitions) + Lifecycle(ids[1..])
      ensures lang == old(lang) && stage == old(stage)
    {
      var lines := StageALines(input, md, fmt);
      RunSteps(1, lines, ids, base, [first]);
      var localFileUrl: Option<string> := if input.sourceFile.Some? then Some(objectUrl) else None;
      Publish(ids[5], PipelineResult(Some(md), subtitles, VideoPath(input.sourceFile), localFileUrl, None, None),
              ids, base, [first] + DoneAll(lines));
      status := PipelineStatus.Completed;
      LifecycleAppend(ids[1..5], [ids[5]]);
      assert ids[1..5] + [ids[5]] == ids[1..];
    }

    /**
     * The steps of `runStageA` on the fresh list `base` of the stage ids
     * `ids` (Step_2 .. Step_7); `snapshot` is the list the error handler
     * searches.
     */
    method StageASteps(input: UserInput, auth: AuthState, fmt: NumberText, url: Option<Gemini.UrlParts>,
                       metaReply: Gemini.Reply<VideoMetadata>, transcriptReply: Gemini.Reply<seq<SubtitleItem>>,
                       objectUrl: string, snapshot: seq<Step>, ids: seq<string>, ghost base: seq<Step>)
      requires |ids| == 6 && Distinct(ids) && Valid() && steps == base && result.None?
      modifies this
      ensures Valid() && stage == old(stage) && lang == old(lang)
      ensures UrlAccepted(input.youtubeUrl) ==>
        var md := Gemini.FetchMockMetadata(url, metaReply);
        && status == PipelineStatus.Completed
        && steps == Advanced(base, ids, StageAProgress(input, auth, md, fmt))
        && result == Some(PipelineResult(Some(md), Gemini.GenerateMockTranscript(lang, transcriptReply),
                                         VideoPath(input.sourceFile),
                                         if input.sourceFile.Some? then Some(objectUrl) else None, None, None))
        && transitions == old(transitions) + Lifecycle(ids)
      ensures !UrlAccepted(input.youtubeUrl) ==>
        && status == PipelineStatus.Error && result.None?
        && steps == MarkError(Advanced(base, ids, StageARejected(auth)), snapshot, "Invalid URL")
        && transitions == old(transitions) + [Transition(ids[0], Active)]
    {
      var accepted := CheckUrl(input, auth, snapshot, ids, base);
      if !accepted {
        return;
      }
      var md := Gemini.FetchMockMetadata(url, metaReply);
      var subtitles := Gemini.GenerateMockTranscript(lang, transcriptReply);
      StageALaterSteps(input, fmt, md, subtitles, objectUrl, ids, base,
                       Done(AuthLines(auth) + ["Valid URL: " + input.youtubeUrl]));
      LifecycleAppend([ids[0]], ids[1..]);
      assert [ids[0]] + ids[1..] == ids;
    }

    /** The start of `runStageA`: Running, stage A, no result, the fresh steps of `ids`. */
    method BeginStageA(ids: seq<string>)
      modifies this
      ensures Valid() && status == Running && stage == A && result.None? && steps == GetSteps(ids, lang)
      ensures lang == old(lang) && transitions == old(transitions)
    {
      status := Running;
      stage := A;
      result := None;
      steps := GetSteps(ids, lang);
    }

    /**
     * `runStageA` over the stage ids `ids`: the list is replaced by their
     * fresh steps, which are then run. The error handler searches
     * `old(steps)`, the list from before the run.
     */
    method StageARun(input: UserInput, auth: AuthState, fmt: NumberText, url: Option<Gemini.UrlParts>,
                     metaReply: Gemini.Reply<VideoMetadata>, transcriptReply: Gemini.Reply<seq<SubtitleItem>>,
                     objectUrl: string, ids: seq<string>)
      requires |ids| == 6 && Distinct(ids) && Valid()
      modifies this
      ensures Valid() && stage == A && lang == old(lang)
      ensures UrlAccepted(input.youtubeUrl) ==>
        var md := Gemini.FetchMockMetadata(url, metaReply);
        && status == PipelineStatus.Completed
        && steps == Advanced(GetSteps(ids, lang), ids, StageAProgress(input, auth, md, fmt))
        && result == Some(PipelineResult(Some(md), Gemini.GenerateMockTranscript(lang, transcriptReply),
                                         VideoPath(input.sourceFile),
                                         if input.sourceFile.Some? then Some(objectUrl) else None, None, None))
        && transitions == old(transitions) + Lifecycle(ids)
      ensures !UrlAccepted(input.youtubeUrl) ==>
        && status == PipelineStatus.Error && result.None?
        && steps == MarkError(Advanced(GetSteps(ids, lang), ids, StageARejected(auth)), old(steps), "Invalid URL")
        && transitions == old(transitions) + [Transition(ids[0], Active)]
    {
      var snapshot := steps;
      BeginStageA(ids);
      StageASteps(input, auth, fmt, url, metaReply, transcriptReply, objectUrl, snapshot, ids, steps);
    }

    /**
     * `runStageA`. `url` is the parsed input URL, `metaReply` and
     * `transcriptReply` the generator's replies, `objectUrl` what
     * `URL.createObjectURL` returns for the file. A URL that mentions neither
     * "youtube" nor "youtu.be" fails at Step_2 (`StageAIds[0]`), before any
     * collaborator is used; the error handler searches `old(steps)`, the list
     * from before the run. The result is cleared at the start and set only at
     * Step_7.
     */
    method RunStageA(input: UserInput, auth: AuthState, fmt: NumberText, url: Option<Gemini.UrlParts>,
                     metaReply: Gemini.Reply<VideoMetadata>, transcriptReply: Gemini.Reply<seq<SubtitleItem>>,
                     objectUrl: string)
      requires Valid()
      modifies this
      ensures Valid() && stage == A && lang == old(lang)
      ensures UrlAccepted(input.youtubeUrl) ==>
        var md := Gemini.FetchMockMetadata(url, metaReply);
        && status == PipelineStatus.Completed
        && steps == Advanced(GetSteps(StageAIds, lang), StageAIds, StageAProgress(input, auth, md, fmt))
        && result == Some(PipelineResult(Some(md), Gemini.GenerateMockTranscript(lang, transcriptReply),
                                         VideoPath(input.sourceFile),
                                         if input.sourceFile.Some? then Some(objectUrl) else None, None, None))
        && transitions == old(transitions) + Lifecycle(StageAIds)
      ensures !UrlAccepted(input.youtubeUrl) ==>
        && status == PipelineStatus.Error && result.None?
        && steps == MarkError(Advanced(GetSteps(StageAIds, lang), StageAIds, StageARejected(auth)),
                              old(steps), "Invalid URL")
        && transitions == old(transitions) + [Transition(StageAIds[0], Active)]
    {
      StageIdsDistinct();
      StageARun(input, auth, fmt, url, metaReply, transcriptReply, objectUrl, StageAIds);
    }

    /**
     * Step_8 of `runStageB`: it becomes Active and logs its first line; the
     * highlights are generated; the first highlight's window is logged and
     * the step completes. With no highlight, reading the first one throws and
     * the error handler, searching `snapshot`, records the TypeError.
     */
    method HighlightStep(fmt: NumberText, highlightsReply: Gemini.Reply<seq<HighlightSegment>>,
                         snapshot: seq<Step>, ids: seq<string>, ghost base: seq<Step>)
      returns (hs: seq<HighlightSegment>)
      requires |ids| == 7 && Distinct(ids) && Valid() && steps == base
      modifies this
      ensures hs == Gemini.GenerateHighlights(highlightsReply)
      ensures Valid() && lang == old(lang) && result == old(result) && stage == old(stage)
      ensures |hs| > 0 ==>
        && steps == Advanced(base, ids, [Done(Step8Lines(hs[0], fmt))]) && status == old(status)
        && transitions == old(transitions) + Lifecycle([ids[0]])
      ensures |hs| == 0 ==>
        && status == PipelineStatus.Error
        && steps == MarkError(Advanced(base, ids, StageBNoHighlight()), snapshot, NoHighlightMessage)
        && transitions == old(transitions) + [Transition(ids[0], Active)]
    {
      ghost var t0 := transitions;
      AdvancedNothing(base, ids);
      Begin(ids[0], ids, base, []);
      Note(ids[0], "Analyzing engagement metrics...", ids, base, [], Progress(Active, []));
      assert [] + ["Analyzing engagement metrics..."] == ["Analyzing engagement metrics..."];
      assert [] + [Progress(Active, ["Analyzing engagement metrics..."])] == StageBNoHighlight();
      hs := Gemini.GenerateHighlights(highlightsReply);
      if |hs| == 0 {
        HandleError(NoHighlightMessage, snapshot);
        return;
      }
      var line := "Target Segment: " + fmt.show(hs[0].start) + "s - " + fmt.show(hs[0].end) + "s";
      Note(ids[0], line, ids, base, [], Progress(Active, ["Analyzing engagement metrics..."]));
      assert ["Analyzing engagement metrics..."] + [line] == Step8Lines(hs[0], fmt);
      Finish(ids[0], ids, base, [], Progress(Active, Step8Lines(hs[0], fmt)));
      LifecycleOne(t0, ids[0]);
    }

    /**
     * Step_9 of `runStageB`, once Step_8 has ended as `first`: it becomes
     * Active, logs the cut (local or cloud wording), builds the clip link from
     * the metadata's id and completes. Without metadata, reading its id
     * throws and the error handler, searching `snapshot`, records the TypeError.
     */
    method CutStep(fmt: NumberText, localFileUrl: Option<string>, metadata: Option<VideoMetadata>,
                   hs: seq<HighlightSegment>, snapshot: seq<Step>, ids: seq<string>, ghost base: seq<Step>,
                   ghost first: Progress)
      returns (ok: bool, cutUrl: string)
      requires |ids| == 7 && Distinct(ids) && |hs| > 0 && first.status == StepStatus.Completed
      requires Valid() && steps == Advanced(base, ids, [first])
      modifies this
      ensures ok == metadata.Some?
      ensures Valid() && lang == old(lang) && result == old(result) && stage == old(stage)
      ensures ok ==>
        && cutUrl == Gemini.GenerateEditedClip(metadata.value.id, hs).value
        && steps == Advanced(base, ids, [first] + [Done(Step9Lines(localFileUrl, hs[0], fmt))])
        && status == old(status)
        && transitions == old(transitions) + Lifecycle([ids[1]])
      ensures !ok ==>
        && status == PipelineStatus.Error
        && steps == MarkError(Advanced(base, ids, [first] + [Progress(Active, Step9Lines(localFileUrl, hs[0], fmt))]),
                              snapshot, NoMetadataMessage)
        && transitions == old(transitions) + [Transition(ids[1], Active)]
    {
      ghost var t0 := transitions;
      Begin(ids[1], ids, base, [first]);
      LogAll(ids[1], Step9Lines(localFileUrl, hs[0], fmt), ids, base, [first]);
      ok := metadata.Some?;
      cutUrl := "";
      if !ok {
        HandleError(NoMetadataMessage, snapshot);
        return;
      }
      cutUrl := Gemini.GenerateEditedClip(metadata.value.id, hs).value;
      Finish(ids[1], ids, base, [first], Progress(Active, Step9Lines(localFileUrl, hs[0], fmt)));
      LifecycleOne(t0, ids[1]);
    }

    /**
     * Step_10 of `runStageB`, after the steps `done`: it becomes Active, the
     * voice script is generated and its length logged, and the step
     * completes. The overlay captions the source also builds here are a pure
     * function of the script, so the caller builds them.
     */
    method ScriptStep(fmt: NumberText, scriptReply: Gemini.Reply<string>,
                      ids: seq<string>, ghost base: seq<Step>, ghost done: seq<Progress>)
      returns (script: string)
      requires |ids| == 7 && Distinct(ids) && |done| == 2 && AllDone(done)
      requires Valid() && steps == Advanced(base, ids, done)
      modifies this
      ensures script == Gemini.GenerateVoiceScript(lang, scriptReply)
      ensures Valid() && steps == Advanced(base, ids, done + [Done(Step10Lines(script, fmt))])
      ensures transitions == old(transitions) + Lifecycle([ids[2]])
      ensures lang == old(lang) && status == old(status) && result == old(result) && stage == old(stage)
    {
      ghost var t0 := transitions;
      Begin(ids[2], ids, base, done);
      Note(ids[2], "Analyzing visual context...", ids, base, done, Progress(Active, []));
      assert [] + ["Analyzing visual context..."] == ["Analyzing visual context..."];
      script := Gemini.GenerateVoiceScript(lang, scriptReply);
      var line := "Script generated (" + fmt.show(Utf16Length(script) as real) + " chars)";
      Note(ids[2], line, ids, base, done, Progress(Active, ["Analyzing visual context..."]));
      assert ["Analyzing visual context..."] + [line] == Step10Lines(script, fmt);
      Finish(ids[2], ids, base, done, Progress(Active, Step10Lines(script, fmt)));
      LifecycleOne(t0, ids[2]);
    }

    /**
     * The end of `runStageB`: the Stage B record assembled from the
     * highlights `hs`, the clip link `cutUrl` and the `script` is attached to
     * the result, and the run is Completed.
     */
    method AttachStageB(seoReply: Gemini.Reply<SeoData>, hs: seq<HighlightSegment>, cutUrl: string, script: string)
      requires |hs| > 0 && result.Some? && result.value.metadata.Some?
      requires cutUrl == Gemini.GenerateEditedClip(result.value.metadata.value.id, hs).value
      modifies this
      ensures result == Some(old(result).value.(stageB := Some(StageBRecord(old(result).value.metadata.value, hs, script, seoReply))))
      ensures status == PipelineStatus.Completed
      ensures steps == old(steps) && transitions == old(transitions) && lang == old(lang) && stage == old(stage)
    {
      var record := AssembleStageB(result.value.metadata.value, hs, cutUrl, script, seoReply);
      result := Some(result.value.(stageB := Some(record)));
      status := PipelineStatus.Completed;
    }

    /**
     * Step_11 .. Step_14 of `runStageB`, after the steps `done`, then the
     * Stage B record is attached and the run is Completed. The overlay
     * captions, which the source builds during Step_10, are a pure function
     * of the `script` and are built with the record.
     */
    method StageBLaterSteps(seoReply: Gemini.Reply<SeoData>, hs: seq<HighlightSegment>, cutUrl: string,
                            script: string, ids: seq<string>, ghost base: seq<Step>, ghost done: seq<Progress>)
      requires |ids| == 7 && Distinct(ids) && |done| == 3 && AllDone(done) && |hs| > 0
      requires Valid() && steps == Advanced(base, ids, done)
      requires result.Some? && result.value.metadata.Some?
      requires cutUrl == Gemini.GenerateEditedClip(result.value.metadata.value.id, hs).value
      modifies this
      ensures Valid() && steps == Advanced(base, ids, done + DoneAll(StageBTailLines))
      ensures result == Some(old(result).value.(stageB := Some(StageBRecord(old(result).value.metadata.value, hs, script, seoReply))))
      ensures status == PipelineStatus.Completed
      ensures transitions == old(transitions) + Lifecycle(ids[3..])
      ensures lang == old(lang) && stage == old(stage)
    {
      assert |StageBTailLines| == 4 && ids[3..3 + 4] == ids[3..];
      RunSteps(3, StageBTailLines, ids, base, done);
      AttachStageB(seoReply, hs, cutUrl, script);
    }

    /**
     * Step_10 .. Step_14 of `runStageB`, once Step_8 and Step_9 have
     * completed as `done` and the clip link `cutUrl` is built: the script
     * step, then the later steps.
     */
    method StageBScripted(fmt: NumberText, scriptReply: Gemini.Reply<string>, seoReply: Gemini.Reply<SeoData>,
                          hs: seq<HighlightSegment>, cutUrl: string, ids: seq<string>, ghost base: seq<Step>,
                          ghost done: seq<Progress>)
      requires |ids| == 7 && Distinct(ids) && |done| == 2 && AllDone(done) && |hs| > 0
      requires Valid() && steps == Advanced(base, ids, done)
      requires result.Some? && result.value.metadata.Some?
      requires cutUrl == Gemini.GenerateEditedClip(result.value.metadata.value.id, hs).value
      modifies this
      ensures
        var script := Gemini.GenerateVoiceScript(lang, scriptReply);
        && Valid() && steps == Advanced(base, ids, done + [Done(Step10Lines(script, fmt))] + DoneAll(StageBTailLines))
        && result == Some(old(result).value.(stageB := Some(StageBRecord(old(result).value.metadata.value, hs, script, seoReply))))
        && status == PipelineStatus.Completed
        && transitions == old(transitions) + Lifecycle([ids[2]]) + Lifecycle(ids[3..])
      ensures lang == old(lang) && stage == old(stage)
    {
      var script := ScriptStep(fmt, scriptReply, ids, base, done);
      AllDoneSnoc(done, Done(Step10Lines(script, fmt)));
      StageBLaterSteps(seoReply, hs, cutUrl, script, ids, base, done + [Done(Step10Lines(script, fmt))]);
    }

    /**
     * Step_9 .. Step_14 of `runStageB`, once Step_8 has completed with the
     * highlights `hs`; `before` is the transition log from before Step_8.
     */
    method StageBAfterHighlight(fmt: NumberText, highlightsReply: Gemini.Reply<seq<HighlightSegment>>,
                                scriptReply: Gemini.Reply<string>, seoReply: Gemini.Reply<SeoData>,
                                hs: seq<HighlightSegment>, snapshot: seq<Step>, ids: seq<string>,
                                ghost base: seq<Step>, ghost r: PipelineResult, ghost before: seq<Transition>)
      requires |ids| == 7 && Distinct(ids) && hs == Gemini.GenerateHighlights(highlightsReply) && |hs| > 0
      requires Valid() && steps == Advanced(base, ids, [Done(Step8Lines(hs[0], fmt))]) && result == Some(r)
      requires transitions == before + Lifecycle([ids[0]])
      modifies this
      ensures Valid() && stage == old(stage) && lang == old(lang)
      ensures (status, steps, result, transitions)
              == StageBEnd(r, base, snapshot, ids, lang, fmt, highlightsReply, scriptReply, seoReply, before)
    {
      ghost var step8 := Done(Step8Lines(hs[0], fmt));
      var ok, cutUrl := CutStep(fmt, result.value.localFileUrl, result.value.metadata, hs, snapshot, ids, base, step8);
      if !ok {
        StageBEndNoMetadata(r, base, snapshot, ids, lang, fmt, highlightsReply, scriptReply, seoReply, before);
        return;
      }
      ghost var step9 := Done(Step9Lines(r.localFileUrl, hs[0], fmt));
      AllDoneTwo(step8, step9);
      StageBScripted(fmt, scriptReply, seoReply, hs, cutUrl, ids, base, [step8] + [step9]);
      StageBEndCompleted(r, base, snapshot, ids, lang, fmt, highlightsReply, scriptReply, seoReply, before);
    }

    /**
     * The steps of `runStageB` on the list `base` it starts from (the old
     * list followed by the fresh Stage B steps), for the stage ids `ids`
     * (Step_8 .. Step_14); `snapshot` is the list the error handler searches.
     */
    method StageBSteps(fmt: NumberText, highlightsReply: Gemini.Reply<seq<HighlightSegment>>,
                       scriptReply: Gemini.Reply<string>, seoReply: Gemini.Reply<SeoData>,
                       snapshot: seq<Step>, ids: seq<string>, ghost base: seq<Step>, ghost r: PipelineResult)
      requires |ids| == 7 && Distinct(ids) && Valid() && steps == base && result == Some(r)
      modifies this
      ensures Valid() && stage == old(stage) && lang == old(lang)
      ensures (status, steps, result, transitions)
              == StageBEnd(r, base, snapshot, ids, lang, fmt, highlightsReply, scriptReply, seoReply, old(transitions))
    {
      var hs := HighlightStep(fmt, highlightsReply, snapshot, ids, base);
      if |hs| == 0 {
        return;
      }
      StageBAfterHighlight(fmt, highlightsReply, scriptReply, seoReply, hs, snapshot, ids, base, r, old(transitions));
    }

    /** The start of `runStageB`: Running, stage B, the fresh steps of `ids` appended to the list. */
    method BeginStageB(ids: seq<string>)
      requires Valid()
      modifies this
      ensures Valid() && status == Running && stage == B && steps == old(steps) + GetSteps(ids, lang)
      ensures result == old(result) && lang == old(lang) && transitions == old(transitions)
    {
      status := Running;
      stage := B;
      steps := steps + GetSteps(ids, lang);
    }

    /**
     * `runStageB` over the stage ids `ids` (Step_8 .. Step_14), once there is
     * a result: the fresh steps are appended to the list and run. The error
     * handler searches `old(steps)`, the list from before the run.
     */
    method StageBRun(fmt: NumberText, highlightsReply: Gemini.Reply<seq<HighlightSegment>>,
                     scriptReply: Gemini.Reply<string>, seoReply: Gemini.Reply<SeoData>, ids: seq<string>)
      requires |ids| == 7 && Distinct(ids) && Valid() && result.Some?
      modifies this
      ensures Valid() && lang == old(lang) && stage == B
      ensures (status, steps, result, transitions)
              == StageBEnd(old(result).value, old(steps) + GetSteps(ids, lang), old(steps), ids, lang, fmt,
                           highlightsReply, scriptReply, seoReply, old(transitions))
    {
      var snapshot := steps;
      BeginStageB(ids);
      StageBSteps(fmt, highlightsReply, scriptReply, seoReply, snapshot, ids, steps, result.value);
    }

    /**
     * `runStageB`: nothing without a result; otherwise the fresh Stage B
     * steps are appended to the list and run. `highlightsReply`,
     * `scriptReply` and `seoReply` are the generator's replies. An empty
     * highlight list fails at Step_8 (`StageBIds[0]`), a result without
     * metadata at Step_9 (`StageBIds[1]`); the error handler searches
     * `old(steps)`, the list from before the run. The Stage B record is
     * attached only when every step has completed.
     */
    method RunStageB(fmt: NumberText, highlightsReply: Gemini.Reply<seq<HighlightSegment>>,
                     scriptReply: Gemini.Reply<string>, seoReply: Gemini.Reply<SeoData>)
      requires Valid()
      modifies this
      ensures Valid() && lang == old(lang)
      ensures old(result).None? ==>
        && status == old(status) && steps == old(steps) && result == old(result) && stage == old(stage)
        && transitions == old(transitions)
      ensures old(result).Some? ==>
        && stage == B
        && (status, steps, result, transitions)
           == StageBEnd(old(result).value, old(steps) + GetSteps(StageBIds, lang), old(steps), StageBIds, lang, fmt,
                        highlightsReply, scriptReply, seoReply, old(transitions))
    {
      if result.None? {
        return;
      }
      StageIdsDistinct();
      StageBRun(fmt, highlightsReply, scriptReply, seoReply, StageBIds);
    }

    /**
     * `runStageC`: nothing without a result that has metadata; otherwise the
     * stage becomes C and the generated comments are attached with their
     * count and no replies yet. `commentsReply` is the generator's reply and
     * `stamp` stands for the random timestamps. The status and the steps are
     * untouched.
     */
    method RunStageC(commentsReply: Gemini.Reply<seq<Gemini.RawComment>>, stamp: nat -> string)
      requires Valid()
      modifies this
      ensures Valid() && lang == old(lang) && status == old(status) && steps == old(steps)
      ensures transitions == old(transitions)
      ensures old(result).None? || old(result).value.metadata.None? ==>
        result == old(result) && stage == old(stage)
      ensures old(result).Some? && old(result).value.metadata.Some? ==>
        var comments := Gemini.GenerateMockComments(commentsReply, stamp);
        && stage == C
        && result == Some(old(result).value.(stageC := Some(StageCResult(comments, ReplyStats(|comments|, 0)))))
    {
      if result.None? || result.value.metadata.None? {
        return;
      }
      stage := C;
      var comments := Gemini.GenerateMockComments(commentsReply, stamp);
      result := Some(result.value.(stageC := Some(StageCResult(comments, ReplyStats(|comments|, 0)))));
    }
  }
}
