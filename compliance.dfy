/** The compliance page: the task list split into pending and completed
    tasks, the checkbox that shows and toggles completion, and the defaults
    of the task and report forms. */
module Compliance {
  import opened Js
  import opened Text
  import opened Seqs
  import opened Schema
  import opened Storage
  import opened Routes

  const Pending: Field := Text("pending")
  const Completed: Field := Text("completed")

  predicate IsPending(t: ComplianceTask) { t.status == Pending }
  predicate IsCompleted(t: ComplianceTask) { t.status == Completed }

  /** `tasksList.filter(t => t.status === "pending")`. */
  function PendingTasks(tasks: seq<ComplianceTask>): (r: seq<ComplianceTask>)
    ensures |r| <= |tasks|
    ensures forall t :: t in r <==> t in tasks && t.status == Pending
    ensures forall t :: multiset(r)[t] == if t.status == Pending then multiset(tasks)[t] else 0
  {
    Filter(tasks, IsPending)
  }

  /** `tasksList.filter(t => t.status === "completed")`. */
  function CompletedTasks(tasks: seq<ComplianceTask>): (r: seq<ComplianceTask>)
    ensures |r| <= |tasks|
    ensures forall t :: t in r <==> t in tasks && t.status == Completed
    ensures forall t :: multiset(r)[t] == if t.status == Completed then multiset(tasks)[t] else 0
  {
    Filter(tasks, IsCompleted)
  }

  /** No task is both pending and completed, so the two counts in the
      header add up to at most the number of tasks. */
  lemma PendingAndCompletedDisjoint(tasks: seq<ComplianceTask>)
    ensures forall t :: !(t in PendingTasks(tasks) && t in CompletedTasks(tasks))
    ensures |PendingTasks(tasks)| + |CompletedTasks(tasks)| <= |tasks|
  {
    FilterDisjointLength(tasks, IsPending, IsCompleted);
  }

  /** A task whose status is anything else, missing included, is counted
      in neither group (no column default is applied in memory). */
  lemma OtherStatusUncounted(tasks: seq<ComplianceTask>, t: ComplianceTask)
    requires t in tasks && t.status != Pending && t.status != Completed
    ensures t !in PendingTasks(tasks) && t !in CompletedTasks(tasks)
  {
  }

  /** Both groups keep the order of the task listing. */
  lemma GroupsKeepOrder(tasks: seq<ComplianceTask>)
    ensures IsSubsequence(PendingTasks(tasks), tasks)
    ensures IsSubsequence(CompletedTasks(tasks), tasks)
  {
    FilterIsSubsequence(tasks, IsPending);
    FilterIsSubsequence(tasks, IsCompleted);
  }

  /** `checked={task.status === "completed"}`. */
  predicate IsChecked(t: ComplianceTask) {
    t.status == Completed
  }

  /** `completed ? "completed" : "pending"`. */
  function ToggleStatus(checked: bool): (s: Field)
    ensures s == Completed || s == Pending
    ensures s == Completed <==> checked
  {
    if checked then Completed else Pending
  }

  /** The PATCH body the checkbox sends: only a status. */
  function TogglePatch(checked: bool): (p: TaskPatch)
    ensures p.status == Some(ToggleStatus(checked))
    ensures p.id == None && p.title == None && p.description == None
    ensures p.deadline == None && p.createdAt == None
  {
    TaskPatch(None, None, None, None, Some(ToggleStatus(checked)), None)
  }

  /** After the toggle is applied, the checkbox shows what was clicked and
      only the status has changed. */
  lemma ToggleShowsChecked(t: ComplianceTask, checked: bool)
    ensures IsChecked(MergeTask(t, TogglePatch(checked))) == checked
    ensures MergeTask(t, TogglePatch(checked)) == t.(status := ToggleStatus(checked))
  {
    MergeStatusOnly(t, ToggleStatus(checked));
  }

  /** Toggling a listed task `t`: the page sends the PATCH to `${t.id}`,
      the task's `id` field. That reaches the task stored under key `t.id`,
      or is answered 404 when no key equals it; only while `t` is itself
      stored under its id (no PATCH has overwritten the `id`) does `t` land
      in the group that was clicked. */
  lemma ToggleThroughRoute(tasks: map<int, ComplianceTask>, t: ComplianceTask, checked: bool)
    requires t in tasks.Values
    ensures var r := PatchOutcome(tasks, IntText(t.id), TogglePatch(checked));
      && (t.id !in tasks ==> r == Failure(404, NotFoundMessage))
      && (t.id in tasks ==> r == Ok(tasks[t.id].(status := ToggleStatus(checked))))
      && (t.id in tasks && tasks[t.id] == t ==>
          && r == Ok(t.(status := ToggleStatus(checked)))
          && IsChecked(r.body) == checked
          && (checked ==> IsCompleted(r.body) && !IsPending(r.body))
          && (!checked ==> IsPending(r.body) && !IsCompleted(r.body)))
  {
    ParseIntText(t.id);
    if t.id in tasks {
      ToggleShowsChecked(tasks[t.id], checked);
    }
  }

  /** The task form's initial values. */
  const TaskFormDefaults: InsertComplianceTask := InsertComplianceTask("", "", "", Pending)

  /** The report form's initial values. */
  const ReportFormDefaults: InsertSafetyReport := InsertSafetyReport("", "", "", Text("low"))

  /** A task submitted with the form's default status is accepted and is
      pending once stored. */
  lemma DefaultTaskIsPending(title: string, description: string, deadline: string, id: int, now: int)
    ensures var x := TaskFormDefaults.(title := title, description := description, deadline := deadline);
      && ParseInsertComplianceTask(TaskBody(x)) == Parsed(x)
      && IsPending(x.Stored(id, now)) && !IsChecked(x.Stored(id, now))
  {
    var x := TaskFormDefaults.(title := title, description := description, deadline := deadline);
    TaskRoundTrip(x);
  }

  /** A report submitted with the form's defaults is accepted with
      severity "low", empty fields included. */
  lemma DefaultReportIsLow(title: string, content: string, incidentDate: string)
    ensures var x := ReportFormDefaults.(title := title, content := content, incidentDate := incidentDate);
      && ParseInsertSafetyReport(ReportBody(x)) == Parsed(x)
      && x.severity == Text("low")
  {
    var x := ReportFormDefaults.(title := title, content := content, incidentDate := incidentDate);
    ReportRoundTrip(x);
  }
}
