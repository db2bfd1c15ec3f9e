/** The four record shapes of the application and their insert schemas:
    which fields a create request must, may or cannot carry. Text columns
    are plain strings (no numeric or date check, empty strings allowed);
    `id` and `createdAt` are never part of an insert. */
module Schema {
  import opened Js

  /** A row of the `experiments` table. `hazardLevel`, `aiPrediction` and
      `recommendations` are computed by the server. */
  datatype Experiment = Experiment(
    id: int,
    compoundName: string,
    concentration: string,
    temperature: string,
    conditions: Option<string>,
    hazardLevel: string,
    aiPrediction: string,
    recommendations: Option<string>,
    createdAt: int)

  /** What the store is given to create an experiment: every column except
      `id` and `createdAt`. */
  datatype NewExperiment = NewExperiment(
    compoundName: string,
    concentration: string,
    temperature: string,
    conditions: Option<string>,
    hazardLevel: string,
    aiPrediction: string,
    recommendations: Option<string>)
  {
    /** The row stored for this value under `id`, stamped `createdAt`. */
    function Stored(id: int, createdAt: int): Experiment {
      Experiment(id, compoundName, concentration, temperature, conditions,
                 hazardLevel, aiPrediction, recommendations, createdAt)
    }
  }

  /** The validated body of a predict request. */
  datatype InsertExperiment = InsertExperiment(
    compoundName: string,
    concentration: string,
    temperature: string,
    conditions: Field)

  datatype LabNote = LabNote(id: int, title: string, content: string, tags: Field, createdAt: int)

  datatype InsertLabNote = InsertLabNote(title: string, content: string, tags: Field)
  {
    function Stored(id: int, createdAt: int): LabNote {
      LabNote(id, title, content, tags, createdAt)
    }
  }

  datatype ComplianceTask = ComplianceTask(
    id: int,
    title: string,
    description: string,
    deadline: string,
    status: Field,
    createdAt: int)

  datatype InsertComplianceTask = InsertComplianceTask(
    title: string,
    description: string,
    deadline: string,
    status: Field)
  {
    function Stored(id: int, createdAt: int): ComplianceTask {
      ComplianceTask(id, title, description, deadline, status, createdAt)
    }
  }

  /** `Partial<ComplianceTask>`: the fields a PATCH body carries. */
  datatype TaskPatch = TaskPatch(
    id: Option<int>,
    title: Option<string>,
    description: Option<string>,
    deadline: Option<string>,
    status: Option<Field>,
    createdAt: Option<int>)

  datatype SafetyReport = SafetyReport(
    id: int,
    title: string,
    content: string,
    incidentDate: string,
    severity: Field,
    createdAt: int)

  datatype InsertSafetyReport = InsertSafetyReport(
    title: string,
    content: string,
    incidentDate: string,
    severity: Field)
  {
    function Stored(id: int, createdAt: int): SafetyReport {
      SafetyReport(id, title, content, incidentDate, severity, createdAt)
    }
  }

  /** A JSON request body: an object with named members. */
  type Body = map<string, Json>

  /** The outcome of validating a body: the insert value, or the path of
      the first offending field. */
  datatype Validation<+T> = Parsed(value: T) | Invalid(path: string)

  /** A `notNull` text column without default: the member must be a string. */
  predicate IsText(body: Body, key: string) {
    key in body && body[key].JString?
  }

  /** A nullable text column: the member may be missing, `null` or a string. */
  predicate IsNullableText(body: Body, key: string) {
    key !in body || body[key].JNull? || body[key].JString?
  }

  /** A `notNull` text column with a default: the member may be missing or
      a string, but not `null`. */
  predicate IsOptionalText(body: Body, key: string) {
    key !in body || body[key].JString?
  }

  /** The value a member has in the validated object. */
  function FieldOf(body: Body, key: string): Field {
    if key !in body then Undefined
    else match body[key]
      case JString(s) => Text(s)
      case _ => Null
  }

  /** The body member a field is sent as; an undefined field is left out. */
  function Member(key: string, f: Field): Body {
    match f
    case Undefined => map[]
    case Null => map[key := JNull]
    case Text(s) => map[key := JString(s)]
  }

  /** The members of `body` whose names are in `keys`. */
  function Restrict(body: Body, keys: set<string>): Body {
    map k | k in body && k in keys :: body[k]
  }

  lemma MemberOf(body: Body, key: string)
    requires IsNullableText(body, key)
    ensures Member(key, FieldOf(body, key)) == Restrict(body, {key})
  {
  }

  // ---- experiments

  const ExperimentKeys: set<string> := {"compoundName", "concentration", "temperature", "conditions"}

  /** The body a client sends for `x`. */
  function ExperimentBody(x: InsertExperiment): Body {
    map["compoundName" := JString(x.compoundName), "concentration" := JString(x.concentration),
        "temperature" := JString(x.temperature)] + Member("conditions", x.conditions)
  }

  /** `insertExperimentSchema.parse(body)`: three required text members and
      an optional nullable `conditions`; any other member, including `id`,
      `hazardLevel`, `aiPrediction`, `recommendations` and `createdAt`, is
      dropped. */
  function ParseInsertExperiment(body: Body): (r: Validation<InsertExperiment>)
    ensures r.Parsed? <==> IsText(body, "compoundName") && IsText(body, "concentration")
                           && IsText(body, "temperature") && IsNullableText(body, "conditions")
    ensures r.Parsed? ==> ExperimentBody(r.value) == Restrict(body, ExperimentKeys)
    ensures r.Invalid? ==> r.path in ExperimentKeys
  {
    if !IsText(body, "compoundName") then Invalid("compoundName")
    else if !IsText(body, "concentration") then Invalid("concentration")
    else if !IsText(body, "temperature") then Invalid("temperature")
    else if !IsNullableText(body, "conditions") then Invalid("conditions")
    else
      var x := InsertExperiment(body["compoundName"].s, body["concentration"].s,
                                body["temperature"].s, FieldOf(body, "conditions"));
      MemberOf(body, "conditions");
      assert ExperimentBody(x) == Restrict(body, ExperimentKeys);
      Parsed(x)
  }

  /** Every experiment input, empty strings included, is accepted as sent. */
  lemma ExperimentRoundTrip(x: InsertExperiment)
    ensures ParseInsertExperiment(ExperimentBody(x)) == Parsed(x)
  {
    var b := ExperimentBody(x);
    assert FieldOf(b, "conditions") == x.conditions;
  }

  /** Members outside the schema, such as `hazardLevel` or `id`, do not
      change the outcome. */
  lemma ExperimentIgnoresOtherKeys(body: Body, key: string, v: Json)
    requires key !in ExperimentKeys
    ensures ParseInsertExperiment(body[key := v]) == ParseInsertExperiment(body)
  {
    var b := body[key := v];
    assert FieldOf(b, "conditions") == FieldOf(body, "conditions");
  }

  // ---- lab notes

  const LabNoteKeys: set<string> := {"title", "content", "tags"}

  function LabNoteBody(x: InsertLabNote): Body {
    map["title" := JString(x.title), "content" := JString(x.content)] + Member("tags", x.tags)
  }

  /** `insertLabNoteSchema.parse(body)`: required `title` and `content`,
      optional nullable `tags`. */
  function ParseInsertLabNote(body: Body): (r: Validation<InsertLabNote>)
    ensures r.Parsed? <==> IsText(body, "title") && IsText(body, "content") && IsNullableText(body, "tags")
    ensures r.Parsed? ==> LabNoteBody(r.value) == Restrict(body, LabNoteKeys)
    ensures r.Invalid? ==> r.path in LabNoteKeys
  {
    if !IsText(body, "title") then Invalid("title")
    else if !IsText(body, "content") then Invalid("content")
    else if !IsNullableText(body, "tags") then Invalid("tags")
    else
      var x := InsertLabNote(body["title"].s, body["content"].s, FieldOf(body, "tags"));
      MemberOf(body, "tags");
      assert LabNoteBody(x) == Restrict(body, LabNoteKeys);
      Parsed(x)
  }

  lemma LabNoteRoundTrip(x: InsertLabNote)
    ensures ParseInsertLabNote(LabNoteBody(x)) == Parsed(x)
  {
    var b := LabNoteBody(x);
    assert FieldOf(b, "tags") == x.tags;
  }

  // ---- compliance tasks

  const TaskKeys: set<string> := {"title", "description", "deadline", "status"}

  function TaskBody(x: InsertComplianceTask): Body {
    map["title" := JString(x.title), "description" := JString(x.description),
        "deadline" := JString(x.deadline)] + Member("status", x.status)
  }

  /** `insertComplianceTaskSchema.parse(body)`: required `title`,
      `description` and `deadline`; `status` may be left out (its column
      default is applied only by a database) but may not be `null`. */
  function ParseInsertComplianceTask(body: Body): (r: Validation<InsertComplianceTask>)
    ensures r.Parsed? <==> IsText(body, "title") && IsText(body, "description")
                           && IsText(body, "deadline") && IsOptionalText(body, "status")
    ensures r.Parsed? ==> TaskBody(r.value) == Restrict(body, TaskKeys) && r.value.status != Null
    ensures r.Invalid? ==> r.path in TaskKeys
  {
    if !IsText(body, "title") then Invalid("title")
    else if !IsText(body, "description") then Invalid("description")
    else if !IsText(body, "deadline") then Invalid("deadline")
    else if !IsOptionalText(body, "status") then Invalid("status")
    else
      var x := InsertComplianceTask(body["title"].s, body["description"].s, body["deadline"].s,
                                    FieldOf(body, "status"));
      MemberOf(body, "status");
      assert TaskBody(x) == Restrict(body, TaskKeys);
      Parsed(x)
  }

  /** Every task input whose status is not `null` is accepted as sent. */
  lemma TaskRoundTrip(x: InsertComplianceTask)
    requires x.status != Null
    ensures ParseInsertComplianceTask(TaskBody(x)) == Parsed(x)
  {
    var b := TaskBody(x);
    assert FieldOf(b, "status") == x.status;
  }

  // ---- safety reports

  const ReportKeys: set<string> := {"title", "content", "incidentDate", "severity"}

  function ReportBody(x: InsertSafetyReport): Body {
    map["title" := JString(x.title), "content" := JString(x.content),
        "incidentDate" := JString(x.incidentDate)] + Member("severity", x.severity)
  }

  /** `insertSafetyReportSchema.parse(body)`: required `title`, `content`
      and `incidentDate`; `severity` may be left out but may not be `null`. */
  function ParseInsertSafetyReport(body: Body): (r: Validation<InsertSafetyReport>)
    ensures r.Parsed? <==> IsText(body, "title") && IsText(body, "content")
                           && IsText(body, "incidentDate") && IsOptionalText(body, "severity")
    ensures r.Parsed? ==> ReportBody(r.value) == Restrict(body, ReportKeys) && r.value.severity != Null
    ensures r.Invalid? ==> r.path in ReportKeys
  {
    if !IsText(body, "title") then Invalid("title")
    else if !IsText(body, "content") then Invalid("content")
    else if !IsText(body, "incidentDate") then Invalid("incidentDate")
    else if !IsOptionalText(body, "severity") then Invalid("severity")
    else
      var x := InsertSafetyReport(body["title"].s, body["content"].s, body["incidentDate"].s,
                                  FieldOf(body, "severity"));
      MemberOf(body, "severity");
      assert ReportBody(x) == Restrict(body, ReportKeys);
      Parsed(x)
  }

  lemma ReportRoundTrip(x: InsertSafetyReport)
    requires x.severity != Null
    ensures ParseInsertSafetyReport(ReportBody(x)) == Parsed(x)
  {
    var b := ReportBody(x);
    assert FieldOf(b, "severity") == x.severity;
  }
}
