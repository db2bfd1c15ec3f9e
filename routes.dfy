/** The HTTP handlers of the API, over an explicitly passed store. A handler
    validates its body, calls the store and answers with the record or with
    a status and message. The hazard predictor also builds a prompt, asks an
    assessment provider for a JSON answer and fills in defaults for what
    the answer leaves out. */
module Routes {
  import opened Js
  import opened Text
  import opened Schema
  import opened Storage

  /** What a handler sends: the record as JSON, or an error status with a
      `message`. */
  datatype Response<+T> = Ok(body: T) | Failure(status: int, message: string) {
    function Status(): int {
      if Ok? then 200 else status
    }
  }

  /** The outcome of the chat-completion call: it threw with `message`, or
      it answered with the content of its first choice, which may be null. */
  datatype Completion = CallFailed(message: string) | Answered(content: Option<string>)

  /** What `JSON.parse` makes of the content: it throws, yields `null`, an
      object (its string-valued members), or any other value (a number, a
      string, a boolean or an array), none of which has the three
      properties read from it. */
  datatype Doc = SyntaxError(message: string) | NullDoc | ObjectDoc(fields: map<string, string>) | OtherDoc

  /** What the predict handler does once the provider has answered: store
      the filled-in row, or answer 500 with `message`. */
  datatype PredictPlan = Store(row: NewExperiment) | Reject(message: string)

  /** The message of the `TypeError` thrown by `result.hazardLevel` when the
      content parses to `null`. */
  const NullPropertyMessage: string := "Cannot read properties of null (reading 'hazardLevel')"

  const PredictFallback: string := "Failed to predict hazard"

  const NotFoundMessage: string := "Task not found"

  /** The lines of the prompt that carry the request: compound,
      concentration, temperature and, only when `conditions` is truthy, a
      conditions line (otherwise an empty line). */
  function PromptLines(data: InsertExperiment): (lines: seq<string>)
    ensures |lines| == 4
    ensures (exists i :: 0 <= i < |lines| && IsPrefix("Conditions: ", lines[i])) <==> data.conditions.Truthy()
    ensures data.conditions.Truthy() ==> "Conditions: " + data.conditions.s in lines
  {
    var lines := ["Compound: " + data.compoundName,
                  "Concentration: " + data.concentration,
                  "Temperature: " + data.temperature,
                  if data.conditions.Truthy() then "Conditions: " + data.conditions.s else ""];
    assert !IsPrefix("Conditions: ", lines[0]) by { assert lines[0][2] == 'm'; }
    assert !IsPrefix("Conditions: ", lines[1]) by { assert lines[1][3] == 'c'; }
    assert !IsPrefix("Conditions: ", lines[2]) by { assert lines[2][0] == 'T'; }
    assert data.conditions.Truthy() ==> IsPrefix("Conditions: ", lines[3]);
    lines
  }

  /** An empty, missing or null `conditions` all give the same prompt. */
  lemma PromptIgnoresFalsyConditions(data: InsertExperiment)
    ensures PromptLines(data.(conditions := Text(""))) == PromptLines(data.(conditions := Undefined))
    ensures PromptLines(data.(conditions := Null)) == PromptLines(data.(conditions := Undefined))
  {
  }

  /** The member `key` of a parsed answer, if it has a string value. */
  function Lookup(fields: map<string, string>, key: string): (v: Option<string>)
    ensures v.Some? <==> key in fields
    ensures v.Some? ==> v.value == fields[key]
  {
    if key in fields then Some(fields[key]) else None
  }

  /** The row the predict handler stores: the request's fields, with
      `conditions || null`, `hazardLevel || "caution"`,
      `analysis || "Analysis not available"` and `recommendations || null`.
      The hazard level is not checked against the four levels. */
  function Assessed(data: InsertExperiment, fields: map<string, string>): (x: NewExperiment)
    ensures x.compoundName == data.compoundName && x.concentration == data.concentration
    ensures x.temperature == data.temperature
    ensures x.conditions.Some? <==> data.conditions.Truthy()
    ensures x.conditions.Some? ==> data.conditions == Text(x.conditions.value)
    ensures x.hazardLevel != "" && x.aiPrediction != ""
    ensures "hazardLevel" in fields && fields["hazardLevel"] != "" ==> x.hazardLevel == fields["hazardLevel"]
    ensures !("hazardLevel" in fields && fields["hazardLevel"] != "") ==> x.hazardLevel == "caution"
    ensures "analysis" in fields && fields["analysis"] != "" ==> x.aiPrediction == fields["analysis"]
    ensures !("analysis" in fields && fields["analysis"] != "") ==> x.aiPrediction == "Analysis not available"
    ensures x.recommendations.Some? <==> "recommendations" in fields && fields["recommendations"] != ""
    ensures x.recommendations.Some? ==> x.recommendations.value == fields["recommendations"]
  {
    NewExperiment(
      data.compoundName,
      data.concentration,
      data.temperature,
      FieldOrNull(data.conditions),
      OrElse(Lookup(fields, "hazardLevel"), "caution"),
      OrElse(Lookup(fields, "analysis"), "Analysis not available"),
      OrNull(Lookup(fields, "recommendations")))
  }

  /** `JSON.parse(content || "{}")`, where `json` stands for `JSON.parse` on
      a non-empty string; a null or empty content parses as the empty
      object. */
  function ParseContent(content: Option<string>, json: string -> Doc): (d: Doc)
    ensures content == None || content == Some("") ==> d == ObjectDoc(map[])
    ensures content.Some? && content.value != "" ==> d == json(content.value)
  {
    if content.Some? && content.value != "" then json(content.value) else ObjectDoc(map[])
  }

  /** From the provider's answer to the row to store, or to the message of
      the 500 answer: a failed call or unparsable content keeps its error
      message (`error.message || "Failed to predict hazard"`), a `null`
      document fails on its first property read, and any other document
      is filled in by `Assessed`. */
  function PlanPredict(data: InsertExperiment, answer: Completion, json: string -> Doc): (p: PredictPlan)
    ensures p.Reject? ==> p.message != ""
    ensures p.Reject? <==> answer.CallFailed? || ParseContent(answer.content, json).SyntaxError?
                           || ParseContent(answer.content, json).NullDoc?
    ensures answer.CallFailed? ==> p == Reject(OrElse(Some(answer.message), PredictFallback))
    ensures p.Store? ==> p.row.compoundName == data.compoundName && p.row.hazardLevel != ""
    ensures answer.Answered? && ParseContent(answer.content, json).ObjectDoc? ==>
      p == Store(Assessed(data, ParseContent(answer.content, json).fields))
    ensures answer.Answered? && ParseContent(answer.content, json).OtherDoc? ==>
      p == Store(Assessed(data, map[]))
    ensures answer.Answered? && ParseContent(answer.content, json).SyntaxError? ==>
      p == Reject(OrElse(Some(ParseContent(answer.content, json).message), PredictFallback))
    ensures answer.Answered? && ParseContent(answer.content, json).NullDoc? ==>
      p == Reject(NullPropertyMessage)
  {
    match answer
    case CallFailed(m) => Reject(OrElse(Some(m), PredictFallback))
    case Answered(content) =>
      match ParseContent(content, json)
      case SyntaxError(m) => Reject(OrElse(Some(m), PredictFallback))
      case NullDoc => Reject(NullPropertyMessage)
      case ObjectDoc(fields) => Store(Assessed(data, fields))
      case OtherDoc => Store(Assessed(data, map[]))
  }

  /** An answer without content, or an object without the three members,
      stores the defaults: hazard level "caution", the fallback analysis
      text and no recommendations. */
  lemma DefaultsFilled(data: InsertExperiment, content: Option<string>, json: string -> Doc)
    requires content == None || content == Some("")
             || (content.Some? && json(content.value).ObjectDoc?
                 && json(content.value).fields.Keys !! {"hazardLevel", "analysis", "recommendations"})
    ensures PlanPredict(data, Answered(content), json) ==
      Store(NewExperiment(data.compoundName, data.concentration, data.temperature,
                          FieldOrNull(data.conditions), "caution", "Analysis not available", None))
  {
    var d := ParseContent(content, json);
    assert d.ObjectDoc?;
    var fields := d.fields;
    assert "hazardLevel" !in fields && "analysis" !in fields && "recommendations" !in fields;
  }

  /** Any non-empty level the provider names is stored as named, even one
      outside safe, caution, danger and critical. */
  lemma HazardLevelUnchecked(data: InsertExperiment, content: string, json: string -> Doc, level: string)
    requires content != "" && level != ""
    requires json(content) == ObjectDoc(map["hazardLevel" := level])
    ensures PlanPredict(data, Answered(Some(content)), json).Store?
    ensures PlanPredict(data, Answered(Some(content)), json).row.hazardLevel == level
  {
  }

  /** Predicting for 2.5 mol/L sodium hydroxide at 25 degrees with the
      answer `{"hazardLevel":"danger","analysis":"Corrosive.",
      "recommendations":"Wear gloves."}` stores level "danger" with that
      analysis and those recommendations. */
  lemma PredictExample(content: string, json: string -> Doc)
    requires content != ""
    requires json(content) == ObjectDoc(map["hazardLevel" := "danger", "analysis" := "Corrosive.",
                                            "recommendations" := "Wear gloves."])
    ensures var body := map["compoundName" := JString("Sodium Hydroxide"), "concentration" := JString("2.5"),
                            "temperature" := JString("25")];
      && ParseInsertExperiment(body) == Parsed(InsertExperiment("Sodium Hydroxide", "2.5", "25", Undefined))
      && PlanPredict(ParseInsertExperiment(body).value, Answered(Some(content)), json) ==
         Store(NewExperiment("Sodium Hydroxide", "2.5", "25", None, "danger", "Corrosive.", Some("Wear gloves.")))
  {
    var data := InsertExperiment("Sodium Hydroxide", "2.5", "25", Undefined);
    ExperimentRoundTrip(data);
    var fields := json(content).fields;
    assert Lookup(fields, "hazardLevel") == Some("danger");
    assert Lookup(fields, "analysis") == Some("Corrosive.");
    assert Lookup(fields, "recommendations") == Some("Wear gloves.");
  }

  /** `POST /api/experiments/predict`. A body that fails validation is
      answered 500 before the provider is asked; otherwise `provider`
      receives the prompt and the plan decides between storing the row and
      a 500 answer. `sent` is the prompt handed to the provider. */
  method Predict(store: MemStorage, body: Body, provider: seq<string> -> Completion,
                 json: string -> Doc, now: int)
    returns (response: Response<Experiment>, sent: Option<seq<string>>)
    requires store.Valid()
    modifies store`experiments, store`nextExperimentId
    ensures store.Valid()
    ensures ParseInsertExperiment(body).Invalid? ==>
      && sent == None
      && response == Failure(500, ParseInsertExperiment(body).path)
      && store.experiments == old(store.experiments)
      && store.nextExperimentId == old(store.nextExperimentId)
    ensures ParseInsertExperiment(body).Parsed? ==>
      var data := ParseInsertExperiment(body).value;
      var plan := PlanPredict(data, provider(PromptLines(data)), json);
      && sent == Some(PromptLines(data))
      && (plan.Reject? ==>
            && response == Failure(500, plan.message)
            && store.experiments == old(store.experiments)
            && store.nextExperimentId == old(store.nextExperimentId))
      && (plan.Store? ==>
            && response == Ok(plan.row.Stored(old(store.nextExperimentId), now))
            && store.experiments == old(store.experiments)[response.body.id := response.body]
            && store.nextExperimentId == old(store.nextExperimentId) + 1)
  {
    var parsed := ParseInsertExperiment(body);
    if parsed.Invalid? {
      return Failure(500, OrElse(Some(parsed.path), PredictFallback)), None;
    }
    var data := parsed.value;
    var prompt := PromptLines(data);
    sent := Some(prompt);
    var plan := PlanPredict(data, provider(prompt), json);
    if plan.Reject? {
      return Failure(500, plan.message), sent;
    }
    var e := store.CreateExperiment(plan.row, now);
    response := Ok(e);
  }

  /** `POST /api/lab-notes`: 400 with the offending field, or the stored
      note. */
  method PostLabNote(store: MemStorage, body: Body, now: int) returns (response: Response<LabNote>)
    requires store.Valid()
    modifies store`labNotes, store`nextLabNoteId
    ensures store.Valid()
    ensures ParseInsertLabNote(body).Invalid? ==>
      && response == Failure(400, ParseInsertLabNote(body).path)
      && store.labNotes == old(store.labNotes) && store.nextLabNoteId == old(store.nextLabNoteId)
    ensures ParseInsertLabNote(body).Parsed? ==>
      && response == Ok(ParseInsertLabNote(body).value.Stored(old(store.nextLabNoteId), now))
      && store.labNotes == old(store.labNotes)[response.body.id := response.body]
      && store.nextLabNoteId == old(store.nextLabNoteId) + 1
  {
    var parsed := ParseInsertLabNote(body);
    if parsed.Invalid? {
      return Failure(400, OrElse(Some(parsed.path), "Failed to create lab note"));
    }
    var n := store.CreateLabNote(parsed.value, now);
    response := Ok(n);
  }

  /** `POST /api/compliance-tasks`: 400 with the offending field, or the
      stored task (a missing status stays missing). */
  method PostComplianceTask(store: MemStorage, body: Body, now: int) returns (response: Response<ComplianceTask>)
    requires store.Valid()
    modifies store`complianceTasks, store`nextTaskId
    ensures store.Valid()
    ensures ParseInsertComplianceTask(body).Invalid? ==>
      && response == Failure(400, ParseInsertComplianceTask(body).path)
      && store.complianceTasks == old(store.complianceTasks) && store.nextTaskId == old(store.nextTaskId)
    ensures ParseInsertComplianceTask(body).Parsed? ==>
      && response == Ok(ParseInsertComplianceTask(body).value.Stored(old(store.nextTaskId), now))
      && store.complianceTasks == old(store.complianceTasks)[response.body.id := response.body]
      && store.nextTaskId == old(store.nextTaskId) + 1
  {
    var parsed := ParseInsertComplianceTask(body);
    if parsed.Invalid? {
      return Failure(400, OrElse(Some(parsed.path), "Failed to create task"));
    }
    var t := store.CreateComplianceTask(parsed.value, now);
    response := Ok(t);
  }

  /** `POST /api/safety-reports`: 400 with the offending field, or the
      stored report. */
  method PostSafetyReport(store: MemStorage, body: Body, now: int) returns (response: Response<SafetyReport>)
    requires store.Valid()
    modifies store`safetyReports, store`nextReportId
    ensures store.Valid()
    ensures ParseInsertSafetyReport(body).Invalid? ==>
      && response == Failure(400, ParseInsertSafetyReport(body).path)
      && store.safetyReports == old(store.safetyReports) && store.nextReportId == old(store.nextReportId)
    ensures ParseInsertSafetyReport(body).Parsed? ==>
      && response == Ok(ParseInsertSafetyReport(body).value.Stored(old(store.nextReportId), now))
      && store.safetyReports == old(store.safetyReports)[response.body.id := response.body]
      && store.nextReportId == old(store.nextReportId) + 1
  {
    var parsed := ParseInsertSafetyReport(body);
    if parsed.Invalid? {
      return Failure(400, OrElse(Some(parsed.path), "Failed to create report"));
    }
    var s := store.CreateSafetyReport(parsed.value, now);
    response := Ok(s);
  }

  /** What `PATCH /api/compliance-tasks/:id` answers for a task table:
      404 "Task not found" when `parseInt` of the path parameter is NaN or
      names no task, otherwise the merged task. */
  function PatchOutcome(tasks: map<int, ComplianceTask>, idParam: string, updates: TaskPatch): (r: Response<ComplianceTask>)
    ensures r.Failure? <==> ParseInt(idParam).None? || ParseInt(idParam).value !in tasks
    ensures r.Failure? ==> r == Failure(404, NotFoundMessage)
    ensures r.Ok? ==> r.body == MergeTask(tasks[ParseInt(idParam).value], updates)
  {
    match ParseInt(idParam)
    case None => Failure(404, NotFoundMessage)
    case Some(id) => if id in tasks then Ok(MergeTask(tasks[id], updates)) else Failure(404, NotFoundMessage)
  }

  /** A task is reached by its id written in decimal. */
  lemma PatchByDecimalId(tasks: map<int, ComplianceTask>, id: nat, updates: TaskPatch)
    requires id in tasks
    ensures PatchOutcome(tasks, Decimal(id), updates) == Ok(MergeTask(tasks[id], updates))
  {
    ParseIntDecimal(id);
  }

  /** A path parameter without any decimal digit never reaches a task. */
  lemma PatchWithoutDigits(tasks: map<int, ComplianceTask>, idParam: string, updates: TaskPatch)
    requires forall i :: 0 <= i < |idParam| ==> !IsDecimalDigit(idParam[i])
    ensures PatchOutcome(tasks, idParam, updates) == Failure(404, NotFoundMessage)
  {
    ParseIntNoDigits(idParam);
  }

  /** `PATCH /api/compliance-tasks/:id`: the body is merged into the task
      unvalidated, so it may also overwrite `id` and `createdAt`. */
  method PatchComplianceTask(store: MemStorage, idParam: string, updates: TaskPatch)
    returns (response: Response<ComplianceTask>)
    requires store.Valid()
    modifies store`complianceTasks
    ensures store.Valid()
    ensures response == PatchOutcome(old(store.complianceTasks), idParam, updates)
    ensures response.Failure? ==> store.complianceTasks == old(store.complianceTasks)
    ensures response.Ok? ==>
      store.complianceTasks == old(store.complianceTasks)[ParseInt(idParam).value := response.body]
  {
    var id := ParseInt(idParam);
    if id.None? {
      return Failure(404, NotFoundMessage);
    }
    var task := store.UpdateComplianceTask(id.value, updates);
    if task.None? {
      return Failure(404, NotFoundMessage);
    }
    response := Ok(task.value);
  }
}
