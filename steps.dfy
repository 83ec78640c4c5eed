/**
 * The pure step-list operations of the pipeline controller (App.tsx): the
 * stage id lists, building a fresh step list, the map-by-id updaters, the
 * relabelling on a language change, and the search `handleError` performs.
 */
module Steps {
  import opened Wrappers
  import opened Types
  import opened Translations

  const StageAIds: seq<string> := ["Step_2", "Step_3", "Step_4", "Step_5", "Step_6", "Step_7"]
  const StageBIds: seq<string> := ["Step_8", "Step_9", "Step_10", "Step_11", "Step_12", "Step_13", "Step_14"]

  /** `STEP_DEFINITIONS[id]?.[lang].label || id`. */
  function LabelFor(id: string, lang: Language): string {
    match Definition(id, lang)
    case Some(e) => if e.labelText != "" then e.labelText else id
    case None => id
  }

  /** `STEP_DEFINITIONS[id]?.[lang].desc || ''`. */
  function DescriptionFor(id: string, lang: Language): string {
    match Definition(id, lang)
    case Some(e) => e.desc
    case None => ""
  }

  /** `getSteps`: one fresh step per id, in the order of `ids`. */
  function GetSteps(ids: seq<string>, lang: Language): (r: seq<Step>)
    ensures |r| == |ids|
    ensures forall i :: 0 <= i < |ids| ==>
      && r[i].id == ids[i] && r[i].status == Pending && r[i].logs == []
      && r[i].labelText == LabelFor(ids[i], lang) && r[i].description == DescriptionFor(ids[i], lang)
  {
    seq(|ids|, i requires 0 <= i < |ids| => Step(ids[i], LabelFor(ids[i], lang), DescriptionFor(ids[i], lang), Pending, []))
  }

  /** Every id of both stages has a table entry, so `getSteps` shows the table's strings for them. */
  lemma StageIdsDefined(id: string, lang: Language)
    requires id in StageAIds + StageBIds
    ensures Definition(id, lang).Some?
    ensures LabelFor(id, lang) == Definition(id, lang).value.labelText
    ensures DescriptionFor(id, lang) == Definition(id, lang).value.desc
  {
    StepDefinitionsFilled(id, lang);
  }

  /** The ids of a step list, in order. */
  function Ids(s: seq<Step>): (r: seq<string>)
    ensures |r| == |s| && forall i :: 0 <= i < |s| ==> r[i] == s[i].id
  {
    if |s| == 0 then [] else [s[0].id] + Ids(s[1..])
  }

  predicate DistinctIds(s: seq<Step>) {
    forall i, j :: 0 <= i < j < |s| ==> s[i].id != s[j].id
  }

  /** The fields an `updateStep` call overwrites (the source only ever passes `status` and `logs`). */
  datatype Patch = Patch(status: Option<StepStatus>, logs: Option<seq<string>>)

  /** `{ ...s, ...updates }`. */
  function Apply(s: Step, p: Patch): Step {
    s.(status := p.status.GetOr(s.status), logs := p.logs.GetOr(s.logs))
  }

  /** `updateStep`: every step whose id is `id` gets the patch; the others stay as they were. */
  function UpdateStep(s: seq<Step>, id: string, p: Patch): (r: seq<Step>)
    ensures |r| == |s|
    ensures forall i :: 0 <= i < |s| ==> r[i] == if s[i].id == id then Apply(s[i], p) else s[i]
  {
    if |s| == 0 then []
    else [if s[0].id == id then Apply(s[0], p) else s[0]] + UpdateStep(s[1..], id, p)
  }

  /** `addLog`: every step whose id is `id` gets `line` appended to its logs; the others stay as they were. */
  function AddLog(s: seq<Step>, id: string, line: string): (r: seq<Step>)
    ensures |r| == |s|
    ensures forall i :: 0 <= i < |s| ==>
      r[i] == if s[i].id == id then s[i].(logs := s[i].logs + [line]) else s[i]
  {
    if |s| == 0 then []
    else [if s[0].id == id then s[0].(logs := s[0].logs + [line]) else s[0]] + AddLog(s[1..], id, line)
  }

  /** The language effect: steps with a table entry take its strings; id, status, logs and order are kept. */
  function Relabel(s: seq<Step>, lang: Language): (r: seq<Step>)
    ensures |r| == |s|
    ensures forall i :: 0 <= i < |s| ==>
      && r[i].id == s[i].id && r[i].status == s[i].status && r[i].logs == s[i].logs
      && (Definition(s[i].id, lang).None? ==> r[i] == s[i])
      && (Definition(s[i].id, lang).Some? ==>
            r[i].labelText == Definition(s[i].id, lang).value.labelText
            && r[i].description == Definition(s[i].id, lang).value.desc)
  {
    seq(|s|, i requires 0 <= i < |s| => RelabelStep(s[i], lang))
  }

  /** One step of `relabel`: the table's label and description for its id, when the table has the id. */
  function RelabelStep(st: Step, lang: Language): (r: Step)
    ensures r.id == st.id && r.status == st.status && r.logs == st.logs
    ensures Definition(st.id, lang).None? ==> r == st
    ensures Definition(st.id, lang).Some? ==>
      r.labelText == Definition(st.id, lang).value.labelText && r.description == Definition(st.id, lang).value.desc
  {
    match Definition(st.id, lang)
    case Some(e) => st.(labelText := e.labelText, description := e.desc)
    case None => st
  }

  /** Relabelling a fresh list of defined steps gives the fresh list in the new language. */
  lemma {:induction false} RelabelFresh(ids: seq<string>, from: Language, to: Language)
    requires forall i :: 0 <= i < |ids| ==> ids[i] in StageAIds + StageBIds
    ensures Relabel(GetSteps(ids, from), to) == GetSteps(ids, to)
  {
    var r, g := Relabel(GetSteps(ids, from), to), GetSteps(ids, to);
    forall i | 0 <= i < |ids| ensures r[i] == g[i] {
      StageIdsDefined(ids[i], to);
    }
  }

  /** `steps.find(s => s.status === ACTIVE)`, as an index: the first Active step. */
  function FirstActive(s: seq<Step>): (r: Option<nat>)
    ensures r.Some? ==> r.value < |s| && s[r.value].status == Active
    ensures r.Some? ==> forall j :: 0 <= j < r.value ==> s[j].status != Active
    ensures r.None? ==> forall j :: 0 <= j < |s| ==> s[j].status != Active
  {
    if |s| == 0 then None
    else if s[0].status == Active then Some(0)
    else match FirstActive(s[1..])
      case Some(k) => Some(k + 1)
      case None => None
  }

  /**
   * The step-list part of `handleError`: the first Active step of `searched`
   * (the list the handler looks in) is marked Error in `current`, by id, with
   * the logs it had in `searched` followed by `message`.
   */
  function MarkError(current: seq<Step>, searched: seq<Step>, message: string): (r: seq<Step>)
    ensures |r| == |current|
    ensures FirstActive(searched).None? ==> r == current
  {
    match FirstActive(searched)
    case Some(k) => UpdateStep(current, searched[k].id, Patch(Some(StepStatus.Error), Some(searched[k].logs + [message])))
    case None => current
  }

  /**
   * With an Active step in the searched list, every step of the current list
   * that has the failing step's id becomes Error, with the logs the failing
   * step had in the searched list followed by the message; every other step
   * is unchanged.
   */
  lemma MarkErrorById(current: seq<Step>, searched: seq<Step>, message: string, k: nat)
    requires FirstActive(searched) == Some(k)
    ensures forall i :: 0 <= i < |current| ==>
      MarkError(current, searched, message)[i] ==
        if current[i].id == searched[k].id
        then current[i].(status := StepStatus.Error, logs := searched[k].logs + [message])
        else current[i]
  {
  }

  /**
   * Searching the current list: the failing (only Active) step becomes Error
   * with the message as its last log line, and every other step is unchanged,
   * so the steps after it stay Pending.
   */
  lemma MarkErrorOnCurrent(s: seq<Step>, k: nat, message: string)
    requires DistinctIds(s) && k < |s| && s[k].status == Active
    requires forall j :: 0 <= j < |s| && j != k ==> s[j].status != Active
    ensures MarkError(s, s, message) == s[k := s[k].(status := StepStatus.Error, logs := s[k].logs + [message])]
  {
    var r := MarkError(s, s, message);
    assert FirstActive(s) == Some(k);
  }

  /**
   * Searching a snapshot that has no Active step (the list as it was before
   * the run started) leaves the current list untouched: the failing step stays
   * Active and the message is not logged.
   */
  lemma MarkErrorOnIdleSnapshot(current: seq<Step>, snapshot: seq<Step>, message: string)
    requires forall j :: 0 <= j < |snapshot| ==> snapshot[j].status != Active
    ensures MarkError(current, snapshot, message) == current
  {
  }

  /** No two steps are Active. */
  predicate AtMostOneActive(s: seq<Step>) {
    forall i, j :: 0 <= i < |s| && 0 <= j < |s| && s[i].status == Active && s[j].status == Active ==> i == j
  }

  /** One status change of one step, as the run performs them. */
  datatype Transition = Transition(id: string, status: StepStatus)

  /** The status changes of a clean run of `ids`: each step Active then Completed, in declared order. */
  function Lifecycle(ids: seq<string>): (r: seq<Transition>)
    ensures |r| == 2 * |ids|
  {
    seq(2 * |ids|, k requires 0 <= k < 2 * |ids| =>
      Transition(ids[k / 2], if k % 2 == 0 then Active else StepStatus.Completed))
  }

  /** In a clean run, the i-th step goes Active and then Completed, before the next one starts. */
  lemma LifecycleOrder(ids: seq<string>, i: nat)
    requires i < |ids|
    ensures Lifecycle(ids)[2 * i] == Transition(ids[i], Active)
    ensures Lifecycle(ids)[2 * i + 1] == Transition(ids[i], StepStatus.Completed)
  {
    assert (2 * i) / 2 == i && (2 * i + 1) / 2 == i;
  }

  /** A single step's lifecycle: Active, then Completed. */
  lemma LifecycleOne(t: seq<Transition>, id: string)
    ensures t + [Transition(id, Active)] + [Transition(id, StepStatus.Completed)] == t + Lifecycle([id])
  {
    LifecycleOrder([id], 0);
  }

  /** A clean run of `a` then `b` is a clean run of `a + b`. */
  lemma LifecycleAppend(a: seq<string>, b: seq<string>)
    ensures Lifecycle(a + b) == Lifecycle(a) + Lifecycle(b)
  {
    var l, r := Lifecycle(a + b), Lifecycle(a) + Lifecycle(b);
    forall k | 0 <= k < |l| ensures l[k] == r[k] {
      if k >= 2 * |a| {
        var m := k - 2 * |a|;
        assert r[k] == Lifecycle(b)[m];
        assert m / 2 == k / 2 - |a| && m % 2 == k % 2;
        assert (a + b)[k / 2] == b[m / 2];
      }
    }
  }

  /** Stage B's run, split as its helpers perform it: Step_8, Step_9, Step_10, then the rest. */
  lemma LifecycleStageB(t: seq<Transition>, ids: seq<string>)
    requires |ids| == 7
    ensures t + Lifecycle(ids)
         == t + Lifecycle([ids[0]]) + Lifecycle([ids[1]]) + Lifecycle([ids[2]]) + Lifecycle(ids[3..])
  {
    LifecycleAppend([ids[0]], [ids[1]]);
    LifecycleAppend([ids[0]] + [ids[1]], [ids[2]]);
    LifecycleAppend([ids[0]] + [ids[1]] + [ids[2]], ids[3..]);
    assert [ids[0]] + [ids[1]] + [ids[2]] + ids[3..] == ids;
  }

  /** No step is Active. */
  predicate NoneActive(s: seq<Step>) {
    forall i :: 0 <= i < |s| ==> s[i].status != Active
  }

  /** What a run has done to one of its steps: the status it set and the log lines it appended. */
  datatype Progress = Progress(status: StepStatus, added: seq<string>)

  /** A step that ended Completed after logging `lines`. */
  function Done(lines: seq<string>): Progress {
    Progress(StepStatus.Completed, lines)
  }

  /** Steps that each ended Completed, the i-th after logging `ls[i]`. */
  function DoneAll(ls: seq<seq<string>>): (r: seq<Progress>)
    ensures |r| == |ls| && forall i :: 0 <= i < |ls| ==> r[i] == Done(ls[i])
  {
    seq(|ls|, i requires 0 <= i < |ls| => Done(ls[i]))
  }

  /** Completing the next of the steps `ls` after `done`, one step at a time. */
  lemma DoneAllNext(done: seq<Progress>, ls: seq<seq<string>>, k: nat)
    requires k < |ls| && AllDone(done + DoneAll(ls[..k]))
    ensures done + DoneAll(ls[..k + 1]) == done + DoneAll(ls[..k]) + [Done(ls[k])]
    ensures AllDone(done + DoneAll(ls[..k + 1]))
  {
    assert DoneAll(ls[..k + 1]) == DoneAll(ls[..k]) + [Done(ls[k])];
    AllDoneSnoc(done + DoneAll(ls[..k]), Done(ls[k]));
  }

  predicate Distinct(ids: seq<string>) {
    forall j, k :: 0 <= j < k < |ids| ==> ids[j] != ids[k]
  }

  /** The step ids of each stage are distinct. */
  lemma StageIdsDistinct()
    ensures Distinct(StageAIds) && Distinct(StageBIds)
  {
  }

  /** The position of `id` among the first `n` ids of a run, searching from the last. */
  function Slot(ids: seq<string>, n: nat, id: string): (r: Option<nat>)
    requires n <= |ids|
    ensures r.Some? ==> r.value < n && ids[r.value] == id
    ensures r.None? ==> forall j :: 0 <= j < n ==> ids[j] != id
  {
    if n == 0 then None
    else if ids[n - 1] == id then Some(n - 1)
    else Slot(ids, n - 1, id)
  }

  /** One step after a run over `ids` made `prog`: a step whose id is the j-th of the run takes `prog[j]`. */
  function Touched(st: Step, ids: seq<string>, prog: seq<Progress>): Step
    requires |prog| <= |ids|
  {
    match Slot(ids, |prog|, st.id)
    case Some(j) => st.(status := prog[j].status, logs := st.logs + prog[j].added)
    case None => st
  }

  /**
   * The list `s` after a run over the ids `ids` has made `prog`, the progress
   * of its first `|prog|` steps: every step carrying one of those ids
   * (duplicates included) takes that step's status and gets its lines appended.
   */
  function Advanced(s: seq<Step>, ids: seq<string>, prog: seq<Progress>): (r: seq<Step>)
    requires |prog| <= |ids|
    ensures |r| == |s|
    ensures forall i :: 0 <= i < |s| ==> r[i] == Touched(s[i], ids, prog)
  {
    seq(|s|, i requires 0 <= i < |s| => Touched(s[i], ids, prog))
  }

  /** Before a run has done anything the list is as it was. */
  lemma AdvancedNothing(s: seq<Step>, ids: seq<string>)
    ensures Advanced(s, ids, []) == s
  {
  }

  /** Activating the next step of a run with distinct ids records it as started, with no lines yet. */
  lemma AdvancedBegin(s: seq<Step>, ids: seq<string>, prog: seq<Progress>)
    requires Distinct(ids) && |prog| < |ids|
    ensures UpdateStep(Advanced(s, ids, prog), ids[|prog|], Patch(Some(Active), None))
         == Advanced(s, ids, prog + [Progress(Active, [])])
  {
    var n := |prog|;
    var next := prog + [Progress(Active, [])];
    var a, b := UpdateStep(Advanced(s, ids, prog), ids[n], Patch(Some(Active), None)), Advanced(s, ids, next);
    forall i | 0 <= i < |s| ensures a[i] == b[i] {
      if s[i].id == ids[n] {
        assert Slot(ids, n, s[i].id).None?;
        assert s[i].logs + [] == s[i].logs;
      } else {
        assert Slot(ids, n + 1, s[i].id) == Slot(ids, n, s[i].id);
      }
    }
  }

  /** A status `updateStep` on the current step of a run records the new status for it. */
  lemma AdvancedStatus(s: seq<Step>, ids: seq<string>, done: seq<Progress>, cur: Progress, st: StepStatus)
    requires |done| < |ids|
    ensures UpdateStep(Advanced(s, ids, done + [cur]), ids[|done|], Patch(Some(st), None))
         == Advanced(s, ids, done + [cur.(status := st)])
  {
    var a, b := UpdateStep(Advanced(s, ids, done + [cur]), ids[|done|], Patch(Some(st), None)),
                Advanced(s, ids, done + [cur.(status := st)]);
    forall i | 0 <= i < |s| ensures a[i] == b[i] {
    }
  }

  /** An `addLog` on the current step of a run records the line after the step's earlier ones. */
  lemma AdvancedLog(s: seq<Step>, ids: seq<string>, done: seq<Progress>, cur: Progress, line: string)
    requires |done| < |ids|
    ensures AddLog(Advanced(s, ids, done + [cur]), ids[|done|], line)
         == Advanced(s, ids, done + [cur.(added := cur.added + [line])])
  {
    var a, b := AddLog(Advanced(s, ids, done + [cur]), ids[|done|], line),
                Advanced(s, ids, done + [cur.(added := cur.added + [line])]);
    forall i | 0 <= i < |s| ensures a[i] == b[i] {
      if s[i].id == ids[|done|] {
        assert s[i].logs + cur.added + [line] == s[i].logs + (cur.added + [line]);
      }
    }
  }

  /** A run's progress applies to both parts of a list independently. */
  lemma AdvancedAppend(a: seq<Step>, b: seq<Step>, ids: seq<string>, prog: seq<Progress>)
    requires |prog| <= |ids|
    ensures Advanced(a + b, ids, prog) == Advanced(a, ids, prog) + Advanced(b, ids, prog)
  {
    var l, r := Advanced(a + b, ids, prog), Advanced(a, ids, prog) + Advanced(b, ids, prog);
    forall i | 0 <= i < |a + b| ensures l[i] == r[i] {
      if i < |a| {
        assert (a + b)[i] == a[i];
      } else {
        assert (a + b)[i] == b[i - |a|];
      }
    }
  }

  /** A run leaves alone a list that holds none of its ids. */
  lemma AdvancedUntouched(s: seq<Step>, ids: seq<string>, prog: seq<Progress>)
    requires |prog| <= |ids| && forall j :: 0 <= j < |s| ==> s[j].id !in ids
    ensures Advanced(s, ids, prog) == s
  {
    var r := Advanced(s, ids, prog);
    forall j | 0 <= j < |s| ensures r[j] == s[j] {
      assert Slot(ids, |prog|, s[j].id).None?;
      assert s[j].logs + [] == s[j].logs;
    }
  }

  /** With distinct ids, an id's slot among the first `n` is its own position when that is below `n`. */
  lemma SlotOf(ids: seq<string>, n: nat, i: nat)
    requires Distinct(ids) && n <= |ids| && i < |ids|
    ensures Slot(ids, n, ids[i]) == if i < n then Some(i) else None
  {
    var r := Slot(ids, n, ids[i]);
    if r.Some? {
      assert ids[r.value] == ids[i];
    }
  }

  /**
   * On a list that holds a run's own distinct ids in order with no logs (a
   * fresh list of them), the i-th step carries the i-th progress once the
   * run has reached it, and is untouched before.
   */
  lemma AdvancedFreshAt(s: seq<Step>, ids: seq<string>, prog: seq<Progress>, i: nat)
    requires Distinct(ids) && |prog| <= |ids| && |s| == |ids| && i < |s|
    requires s[i].id == ids[i] && s[i].logs == []
    ensures Advanced(s, ids, prog)[i] == if i < |prog| then s[i].(status := prog[i].status, logs := prog[i].added) else s[i]
  {
    SlotOf(ids, |prog|, i);
    if i < |prog| {
      assert [] + prog[i].added == prog[i].added;
    }
  }

  /** `AdvancedFreshAt` for every step of the fresh list. */
  lemma AdvancedFresh(s: seq<Step>, ids: seq<string>, prog: seq<Progress>)
    requires Distinct(ids) && |prog| <= |ids| && |s| == |ids|
    requires forall i :: 0 <= i < |s| ==> s[i].id == ids[i] && s[i].logs == []
    ensures forall i :: 0 <= i < |s| ==>
      Advanced(s, ids, prog)[i] == if i < |prog| then s[i].(status := prog[i].status, logs := prog[i].added) else s[i]
  {
    forall i | 0 <= i < |s|
      ensures Advanced(s, ids, prog)[i] == if i < |prog| then s[i].(status := prog[i].status, logs := prog[i].added) else s[i]
    {
      AdvancedFreshAt(s, ids, prog, i);
    }
  }

  /** A run over a list that holds none of its ids followed by more steps changes only the latter. */
  lemma AdvancedAfterUntouched(prior: seq<Step>, added: seq<Step>, ids: seq<string>, prog: seq<Progress>)
    requires |prog| <= |ids| && forall j :: 0 <= j < |prior| ==> prior[j].id !in ids
    ensures Advanced(prior + added, ids, prog) == prior + Advanced(added, ids, prog)
  {
    AdvancedAppend(prior, added, ids, prog);
    AdvancedUntouched(prior, ids, prog);
  }

  /**
   * A run that completes every one of its distinct ids, over a list that
   * holds none of them followed by a fresh list of them, leaves the first
   * part alone and completes the second, in order.
   */
  lemma AdvancedAppendedDone(prior: seq<Step>, added: seq<Step>, ids: seq<string>, prog: seq<Progress>)
    requires Distinct(ids) && |prog| == |ids| == |added| && AllDone(prog)
    requires forall j :: 0 <= j < |prior| ==> prior[j].id !in ids
    requires forall i :: 0 <= i < |added| ==> added[i].id == ids[i] && added[i].logs == []
    ensures
      var r := Advanced(prior + added, ids, prog);
      && |r| == |prior| + |ids| && r[..|prior|] == prior
      && forall i :: 0 <= i < |ids| ==> r[|prior| + i].id == ids[i] && r[|prior| + i].status == StepStatus.Completed
  {
    var r := Advanced(added, ids, prog);
    AdvancedAfterUntouched(prior, added, ids, prog);
    forall i | 0 <= i < |ids| ensures r[i].id == ids[i] && r[i].status == StepStatus.Completed {
      AdvancedFreshAt(added, ids, prog, i);
    }
    assert (prior + r)[..|prior|] == prior;
    forall i | 0 <= i < |ids| ensures (prior + r)[|prior| + i] == r[i] {
    }
  }

  /** Every step a run has reached is Completed. */
  predicate AllDone(prog: seq<Progress>) {
    forall j :: 0 <= j < |prog| ==> prog[j].status == StepStatus.Completed
  }

  /** A completed step after completed steps keeps them all completed. */
  lemma AllDoneSnoc(prog: seq<Progress>, p: Progress)
    requires AllDone(prog) && p.status == StepStatus.Completed
    ensures AllDone(prog + [p])
  {
    forall j | 0 <= j < |prog| + 1 ensures (prog + [p])[j].status == StepStatus.Completed {
      if j < |prog| {
        assert (prog + [p])[j] == prog[j];
      }
    }
  }

  /** Every step a run has reached except the current one is Completed. */
  predicate Settled(prog: seq<Progress>) {
    forall j :: 0 <= j < |prog| - 1 ==> prog[j].status == StepStatus.Completed
  }

  /**
   * A run that keeps its earlier steps Completed, over a list of distinct,
   * inactive steps, leaves at most one step Active: its current one.
   */
  lemma AdvancedOneActive(s: seq<Step>, ids: seq<string>, prog: seq<Progress>)
    requires |prog| <= |ids| && DistinctIds(s) && NoneActive(s) && Settled(prog)
    ensures AtMostOneActive(Advanced(s, ids, prog))
  {
    var r := Advanced(s, ids, prog);
    forall i, j | 0 <= i < |r| && 0 <= j < |r| && r[i].status == Active && r[j].status == Active
      ensures i == j
    {
      assert s[i].id == ids[|prog| - 1] == s[j].id;
    }
  }
}
