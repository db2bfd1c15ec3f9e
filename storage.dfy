/** The in-memory record store: four tables keyed by id, each with its own
    id counter. A create takes the next id, stamps `createdAt` with the
    clock reading it is given and inserts the record as given; listings
    return sorted copies; a compliance task can be merged with a partial
    update. */
module Storage {
  import opened Js
  import opened Schema
  import opened Seqs

  /** The records of `t` under keys `1..n`, in key order. Every key of a
      table is inserted once, in increasing order, and re-setting a key keeps
      its place, so this is the order in which the table's `values()` are
      iterated. */
  function Column<T>(t: map<int, T>, n: nat): (r: seq<T>)
    requires forall k :: 1 <= k <= n ==> k in t
    ensures |r| == n && forall i :: 0 <= i < n ==> r[i] == t[i + 1]
  {
    if n == 0 then [] else Column(t, n - 1) + [t[n]]
  }

  /** `Array.from(t.values()).sort(...)` for a table whose keys are `1..n`. */
  function Listing<T(==,!new)>(t: map<int, T>, n: nat, rank: T -> int): (r: seq<T>)
    requires forall k :: k in t <==> 1 <= k <= n
    ensures SortedBy(r, rank)
    ensures multiset(r) == multiset(Column(t, n))
  {
    SortBy(Column(t, n), rank)
  }

  /** A listing holds the stored records, each as often as keys hold it. */
  lemma {:induction false} ListingMembers<T(!new)>(t: map<int, T>, n: nat, rank: T -> int)
    requires forall k :: k in t <==> 1 <= k <= n
    ensures var r := Listing(t, n, rank);
      && |r| == n && (forall x :: x in r <==> x in t.Values)
      && multiset(r) == multiset(Column(t, n))
  {
    var c := Column(t, n);
    var r := Listing(t, n, rank);
    assert |r| == |multiset(r)| == |multiset(c)| == n;
    forall x ensures x in r <==> x in t.Values {
      calc {
        x in r;
        x in multiset(r);
        x in multiset(c);
        x in c;
        { if x in c { var i :| 0 <= i < n && c[i] == x; assert t[i + 1] == x; }
          if x in t.Values { var k :| k in t && t[k] == x; assert c[k - 1] == x; } }
        x in t.Values;
      }
    }
  }

  /** When each record's `tie` is its key, records of equal rank keep key
      order in a listing. */
  lemma {:induction false} ListingTies<T(!new)>(t: map<int, T>, n: nat, rank: T -> int, tie: T -> int)
    requires forall k :: k in t <==> 1 <= k <= n
    requires forall k :: k in t ==> tie(t[k]) == k
    ensures TiesOrdered(Listing(t, n, rank), rank, tie)
  {
    var c := Column(t, n);
    forall i, j | 0 <= i < j < |c| ensures tie(c[i]) < tie(c[j]) {
      assert tie(c[i]) == i + 1 && tie(c[j]) == j + 1;
    }
    SortKeepsTies(c, rank, tie);
  }

  /** A record newer than every other one heads a newest-first listing. */
  lemma NewestHeadsListing<T(!new)>(t: map<int, T>, n: nat, rank: T -> int, k: int)
    requires forall k :: k in t <==> 1 <= k <= n
    requires k in t
    requires forall j :: j in t && t[j] != t[k] ==> rank(t[k]) < rank(t[j])
    ensures var r := Listing(t, n, rank); |r| > 0 && r[0] == t[k]
  {
    var c := Column(t, n);
    assert c[k - 1] == t[k];
    forall y | y in c && y != t[k] ensures rank(t[k]) < rank(y) {
      var i :| 0 <= i < n && c[i] == y;
      assert t[i + 1] == y;
    }
    StrictMinimumFirst(c, rank, t[k]);
  }

  /** Newest first: the sort rank of `b.createdAt - a.createdAt`. */
  function ExperimentAge(e: Experiment): int { -e.createdAt }
  function LabNoteAge(n: LabNote): int { -n.createdAt }
  function ReportAge(r: SafetyReport): int { -r.createdAt }

  function ExperimentId(e: Experiment): int { e.id }
  function LabNoteId(n: LabNote): int { n.id }
  function TaskId(t: ComplianceTask): int { t.id }
  function ReportId(r: SafetyReport): int { r.id }

  /** The experiments of a table: each once, newest first, equal timestamps
      in id order. */
  function ExperimentListing(t: map<int, Experiment>, n: nat): (r: seq<Experiment>)
    requires forall k :: k in t <==> 1 <= k <= n
    requires forall k :: k in t ==> t[k].id == k
    ensures |r| == n && (forall e :: e in r <==> e in t.Values)
    ensures multiset(r) == multiset(Column(t, n))
    ensures forall i, j :: 0 <= i < j < |r| ==> r[i].createdAt >= r[j].createdAt
    ensures forall i, j :: 0 <= i < j < |r| && r[i].createdAt == r[j].createdAt ==> r[i].id < r[j].id
  {
    ListingMembers(t, n, ExperimentAge);
    ListingTies(t, n, ExperimentAge, ExperimentId);
    Listing(t, n, ExperimentAge)
  }

  /** The notes of a table: each once, newest first, equal timestamps in id
      order. */
  function LabNoteListing(t: map<int, LabNote>, n: nat): (r: seq<LabNote>)
    requires forall k :: k in t <==> 1 <= k <= n
    requires forall k :: k in t ==> t[k].id == k
    ensures |r| == n && (forall e :: e in r <==> e in t.Values)
    ensures multiset(r) == multiset(Column(t, n))
    ensures forall i, j :: 0 <= i < j < |r| ==> r[i].createdAt >= r[j].createdAt
    ensures forall i, j :: 0 <= i < j < |r| && r[i].createdAt == r[j].createdAt ==> r[i].id < r[j].id
  {
    ListingMembers(t, n, LabNoteAge);
    ListingTies(t, n, LabNoteAge, LabNoteId);
    Listing(t, n, LabNoteAge)
  }

  /** The reports of a table: each once, newest first, equal timestamps in
      id order. */
  function ReportListing(t: map<int, SafetyReport>, n: nat): (r: seq<SafetyReport>)
    requires forall k :: k in t <==> 1 <= k <= n
    requires forall k :: k in t ==> t[k].id == k
    ensures |r| == n && (forall e :: e in r <==> e in t.Values)
    ensures multiset(r) == multiset(Column(t, n))
    ensures forall i, j :: 0 <= i < j < |r| ==> r[i].createdAt >= r[j].createdAt
    ensures forall i, j :: 0 <= i < j < |r| && r[i].createdAt == r[j].createdAt ==> r[i].id < r[j].id
  {
    ListingMembers(t, n, ReportAge);
    ListingTies(t, n, ReportAge, ReportId);
    Listing(t, n, ReportAge)
  }

  /** A note stamped later than every other note of a table heads its
      listing. */
  lemma NewestNoteHeads(t: map<int, LabNote>, n: nat, id: int)
    requires forall k :: k in t <==> 1 <= k <= n
    requires forall k :: k in t ==> t[k].id == k
    requires id in t
    requires forall k :: k in t && k != id ==> t[k].createdAt < t[id].createdAt
    ensures var r := LabNoteListing(t, n); |r| > 0 && r[0] == t[id]
  {
    forall j | j in t && t[j] != t[id]
      ensures LabNoteAge(t[id]) < LabNoteAge(t[j])
    {
      assert j != id;
    }
    NewestHeadsListing(t, n, LabNoteAge, id);
    assert LabNoteListing(t, n) == Listing(t, n, LabNoteAge);
  }

  /** The sort rank of a task: `new Date(deadline).getTime()`, with
      `dateValue` standing for the date parser. */
  function DeadlineRank(dateValue: string -> int): ComplianceTask -> int {
    (t: ComplianceTask) => dateValue(t.deadline)
  }

  /** Every task carries its key as its id, as it does until a PATCH
      overwrites an `id`. */
  predicate TasksKeepIds(t: map<int, ComplianceTask>) {
    forall k :: k in t ==> t[k].id == k
  }

  /** The tasks of a table: each as often as keys hold it, soonest deadline
      first; while every task carries its key as its id, equal deadlines
      keep id order. */
  function TaskListing(t: map<int, ComplianceTask>, n: nat, dateValue: string -> int): (r: seq<ComplianceTask>)
    requires forall k :: k in t <==> 1 <= k <= n
    ensures |r| == n && (forall e :: e in r <==> e in t.Values)
    ensures multiset(r) == multiset(Column(t, n))
    ensures forall i, j :: 0 <= i < j < |r| ==> dateValue(r[i].deadline) <= dateValue(r[j].deadline)
    ensures TasksKeepIds(t) ==>
      forall i, j :: 0 <= i < j < |r| && dateValue(r[i].deadline) == dateValue(r[j].deadline) ==> r[i].id < r[j].id
  {
    ListingMembers(t, n, DeadlineRank(dateValue));
    if TasksKeepIds(t) then
      ListingTies(t, n, DeadlineRank(dateValue), TaskId);
      Listing(t, n, DeadlineRank(dateValue))
    else
      Listing(t, n, DeadlineRank(dateValue))
  }

  /** `{...t, ...p}`: every field present in `p` takes its value from `p`,
      every other field keeps its value from `t`. */
  function MergeTask(t: ComplianceTask, p: TaskPatch): (m: ComplianceTask)
    ensures p == TaskPatch(None, None, None, None, None, None) ==> m == t
    ensures p.status.Some? ==> m.status == p.status.value
  {
    ComplianceTask(
      p.id.GetOr(t.id),
      p.title.GetOr(t.title),
      p.description.GetOr(t.description),
      p.deadline.GetOr(t.deadline),
      p.status.GetOr(t.status),
      p.createdAt.GetOr(t.createdAt))
  }

  /** Applying the same PATCH twice changes nothing more. */
  lemma MergeIdempotent(t: ComplianceTask, p: TaskPatch)
    ensures MergeTask(MergeTask(t, p), p) == MergeTask(t, p)
  {
  }

  /** A patch that carries only a status changes nothing but the status. */
  lemma MergeStatusOnly(t: ComplianceTask, s: Field)
    ensures MergeTask(t, TaskPatch(None, None, None, None, Some(s), None)) == t.(status := s)
  {
  }

  class MemStorage {
    var experiments: map<int, Experiment>
    var labNotes: map<int, LabNote>
    var complianceTasks: map<int, ComplianceTask>
    var safetyReports: map<int, SafetyReport>
    var nextExperimentId: nat
    var nextLabNoteId: nat
    var nextTaskId: nat
    var nextReportId: nat

    /** Each table's keys are exactly the ids its counter has handed out;
        a stored experiment, note or report carries its key as its id. A
        task need not: a PATCH may overwrite its `id` field. */
    ghost predicate Valid()
      reads this
    {
      && nextExperimentId >= 1 && nextLabNoteId >= 1 && nextTaskId >= 1 && nextReportId >= 1
      && (forall k :: k in experiments <==> 1 <= k < nextExperimentId)
      && (forall k :: k in labNotes <==> 1 <= k < nextLabNoteId)
      && (forall k :: k in complianceTasks <==> 1 <= k < nextTaskId)
      && (forall k :: k in safetyReports <==> 1 <= k < nextReportId)
      && (forall k :: k in experiments ==> experiments[k].id == k)
      && (forall k :: k in labNotes ==> labNotes[k].id == k)
      && (forall k :: k in safetyReports ==> safetyReports[k].id == k)
    }

    constructor ()
      ensures Valid()
      ensures experiments == map[] && labNotes == map[] && complianceTasks == map[] && safetyReports == map[]
      ensures nextExperimentId == 1 && nextLabNoteId == 1 && nextTaskId == 1 && nextReportId == 1
    {
      experiments := map[];
      labNotes := map[];
      complianceTasks := map[];
      safetyReports := map[];
      nextExperimentId := 1;
      nextLabNoteId := 1;
      nextTaskId := 1;
      nextReportId := 1;
    }

    // ---- experiments

    /** All experiments, newest first; equal timestamps keep id order. */
    function GetExperiments(): (r: seq<Experiment>)
      reads this
      requires Valid()
      ensures |r| == nextExperimentId - 1
      ensures forall e :: e in r <==> e in experiments.Values
      ensures multiset(r) == multiset(Column(experiments, nextExperimentId - 1))
      ensures forall i, j :: 0 <= i < j < |r| ==> r[i].createdAt >= r[j].createdAt
      ensures forall i, j :: 0 <= i < j < |r| && r[i].createdAt == r[j].createdAt ==> r[i].id < r[j].id
    {
      ExperimentListing(experiments, nextExperimentId - 1)
    }

    function GetExperiment(id: int): (r: Option<Experiment>)
      reads this
      requires Valid()
      ensures r.Some? <==> 1 <= id < nextExperimentId
      ensures r.Some? ==> r.value == experiments[id] && r.value.id == id
    {
      if id in experiments then Some(experiments[id]) else None
    }

    method CreateExperiment(x: NewExperiment, now: int) returns (e: Experiment)
      requires Valid()
      modifies this`experiments, this`nextExperimentId
      ensures Valid()
      ensures e == x.Stored(old(nextExperimentId), now)
      ensures nextExperimentId == old(nextExperimentId) + 1
      ensures e.id !in old(experiments) && forall k :: k in old(experiments) ==> k < e.id
      ensures experiments == old(experiments)[e.id := e]
      ensures GetExperiment(e.id) == Some(e)
    {
      var id := nextExperimentId;
      nextExperimentId := nextExperimentId + 1;
      e := x.Stored(id, now);
      experiments := experiments[id := e];
    }

    // ---- lab notes

    /** All lab notes, newest first; equal timestamps keep id order. */
    function GetLabNotes(): (r: seq<LabNote>)
      reads this
      requires Valid()
      ensures |r| == nextLabNoteId - 1
      ensures forall n :: n in r <==> n in labNotes.Values
      ensures multiset(r) == multiset(Column(labNotes, nextLabNoteId - 1))
      ensures forall i, j :: 0 <= i < j < |r| ==> r[i].createdAt >= r[j].createdAt
      ensures forall i, j :: 0 <= i < j < |r| && r[i].createdAt == r[j].createdAt ==> r[i].id < r[j].id
    {
      LabNoteListing(labNotes, nextLabNoteId - 1)
    }

    function GetLabNote(id: int): (r: Option<LabNote>)
      reads this
      requires Valid()
      ensures r.Some? <==> 1 <= id < nextLabNoteId
      ensures r.Some? ==> r.value == labNotes[id] && r.value.id == id
    {
      if id in labNotes then Some(labNotes[id]) else None
    }

    method CreateLabNote(x: InsertLabNote, now: int) returns (n: LabNote)
      requires Valid()
      modifies this`labNotes, this`nextLabNoteId
      ensures Valid()
      ensures n == x.Stored(old(nextLabNoteId), now)
      ensures nextLabNoteId == old(nextLabNoteId) + 1
      ensures n.id !in old(labNotes) && forall k :: k in old(labNotes) ==> k < n.id
      ensures labNotes == old(labNotes)[n.id := n]
      ensures GetLabNote(n.id) == Some(n)
    {
      var id := nextLabNoteId;
      nextLabNoteId := nextLabNoteId + 1;
      n := x.Stored(id, now);
      labNotes := labNotes[id := n];
    }

    /** A note stamped later than every other stored note is listed first. */
    lemma NewestNoteFirst(id: int)
      requires Valid()
      requires id in labNotes
      requires forall k :: k in labNotes && k != id ==> labNotes[k].createdAt < labNotes[id].createdAt
      ensures |GetLabNotes()| > 0 && GetLabNotes()[0] == labNotes[id]
    {
      NewestNoteHeads(labNotes, nextLabNoteId - 1, id);
      assert GetLabNotes() == LabNoteListing(labNotes, nextLabNoteId - 1);
    }

    // ---- compliance tasks

    /** All tasks, soonest deadline first, where `dateValue` stands for
        `new Date(deadline).getTime()`. While every task still carries its
        key as its id, equal deadlines keep id order. */
    function GetComplianceTasks(dateValue: string -> int): (r: seq<ComplianceTask>)
      reads this
      requires Valid()
      ensures |r| == nextTaskId - 1
      ensures forall t :: t in r <==> t in complianceTasks.Values
      ensures multiset(r) == multiset(Column(complianceTasks, nextTaskId - 1))
      ensures forall i, j :: 0 <= i < j < |r| ==> dateValue(r[i].deadline) <= dateValue(r[j].deadline)
      ensures TasksKeepIds(complianceTasks) ==>
        forall i, j :: 0 <= i < j < |r| && dateValue(r[i].deadline) == dateValue(r[j].deadline) ==> r[i].id < r[j].id
    {
      TaskListing(complianceTasks, nextTaskId - 1, dateValue)
    }

    function GetComplianceTask(id: int): (r: Option<ComplianceTask>)
      reads this
      requires Valid()
      ensures r.Some? <==> 1 <= id < nextTaskId
      ensures r.Some? ==> r.value == complianceTasks[id]
    {
      if id in complianceTasks then Some(complianceTasks[id]) else None
    }

    method CreateComplianceTask(x: InsertComplianceTask, now: int) returns (t: ComplianceTask)
      requires Valid()
      modifies this`complianceTasks, this`nextTaskId
      ensures Valid()
      ensures t == x.Stored(old(nextTaskId), now)
      ensures nextTaskId == old(nextTaskId) + 1
      ensures t.id !in old(complianceTasks) && forall k :: k in old(complianceTasks) ==> k < t.id
      ensures complianceTasks == old(complianceTasks)[t.id := t]
      ensures GetComplianceTask(t.id) == Some(t)
    {
      var id := nextTaskId;
      nextTaskId := nextTaskId + 1;
      t := x.Stored(id, now);
      complianceTasks := complianceTasks[id := t];
    }

    /** Merges `updates` into the task stored under `id`, or reports that
        there is none. */
    method UpdateComplianceTask(id: int, updates: TaskPatch) returns (r: Option<ComplianceTask>)
      requires Valid()
      modifies this`complianceTasks
      ensures Valid()
      ensures complianceTasks.Keys == old(complianceTasks).Keys
      ensures id !in old(complianceTasks) ==> r == None && complianceTasks == old(complianceTasks)
      ensures id in old(complianceTasks) ==>
        && r == Some(MergeTask(old(complianceTasks)[id], updates))
        && complianceTasks == old(complianceTasks)[id := r.value]
    {
      var task := GetComplianceTask(id);
      if task.None? {
        return None;
      }
      var updated := MergeTask(task.value, updates);
      complianceTasks := complianceTasks[id := updated];
      r := Some(updated);
    }

    // ---- safety reports

    /** All safety reports, newest first; equal timestamps keep id order. */
    function GetSafetyReports(): (r: seq<SafetyReport>)
      reads this
      requires Valid()
      ensures |r| == nextReportId - 1
      ensures forall s :: s in r <==> s in safetyReports.Values
      ensures multiset(r) == multiset(Column(safetyReports, nextReportId - 1))
      ensures forall i, j :: 0 <= i < j < |r| ==> r[i].createdAt >= r[j].createdAt
      ensures forall i, j :: 0 <= i < j < |r| && r[i].createdAt == r[j].createdAt ==> r[i].id < r[j].id
    {
      ReportListing(safetyReports, nextReportId - 1)
    }

    function GetSafetyReport(id: int): (r: Option<SafetyReport>)
      reads this
      requires Valid()
      ensures r.Some? <==> 1 <= id < nextReportId
      ensures r.Some? ==> r.value == safetyReports[id] && r.value.id == id
    {
      if id in safetyReports then Some(safetyReports[id]) else None
    }

    method CreateSafetyReport(x: InsertSafetyReport, now: int) returns (s: SafetyReport)
      requires Valid()
      modifies this`safetyReports, this`nextReportId
      ensures Valid()
      ensures s == x.Stored(old(nextReportId), now)
      ensures nextReportId == old(nextReportId) + 1
      ensures s.id !in old(safetyReports) && forall k :: k in old(safetyReports) ==> k < s.id
      ensures safetyReports == old(safetyReports)[s.id := s]
      ensures GetSafetyReport(s.id) == Some(s)
    {
      var id := nextReportId;
      nextReportId := nextReportId + 1;
      s := x.Stored(id, now);
      safetyReports := safetyReports[id := s];
    }
  }
}
