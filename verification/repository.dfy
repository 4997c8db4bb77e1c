/**
 * The BigQuery repository: where it finds its table, how a query result
 * becomes event records, and the parameterised UPDATE statement it issues for
 * one event. The BigQuery client itself is outside the model: creating it and
 * running a statement are function parameters whose results the repository
 * reacts to.
 */
module Repository {
  import opened Common
  import opened DotNet
  import opened Dto
  import opened Json
  import opened JsonParser

  /** `configuration[key]`, which is null for a missing key. */
  type Config = map<string, string>

  datatype TablePath = TablePath(projectId: string, datasetId: string, tableId: string)

  datatype Repo = Repo(table: TablePath)

  const DefaultProject := "komplett-bigquery"
  const DefaultDataset := "ga_event_names"
  const DefaultTable := "event_names"

  /** `configuration[key] ?? fallback`: an empty value is kept, only a missing one is replaced. */
  function Setting(config: Config, key: string, fallback: string): (v: string)
    ensures key in config ==> v == config[key]
    ensures key !in config ==> v == fallback
  {
    if key in config then config[key] else fallback
  }

  function TableOf(config: Config): TablePath {
    TablePath(Setting(config, "BigQuery:ProjectId", DefaultProject),
              Setting(config, "BigQuery:DatasetId", DefaultDataset),
              Setting(config, "BigQuery:TableId", DefaultTable))
  }

  /**
   * The constructor: without a service account it throws; otherwise it
   * creates the client for the configured project with the account's
   * credentials, rethrowing whatever that creation throws.
   */
  function Create(config: Config, connect: (string, string) -> Outcome<Exception>): (r: Result<Repo, Exception>)
    ensures "GoogleServiceAccount" !in config ==>
              r == Err(InvalidOperationException("GoogleServiceAccount configuration is missing"))
    ensures "GoogleServiceAccount" in config ==>
              var attempt := connect(TableOf(config).projectId, config["GoogleServiceAccount"]);
              (r.Ok? <==> attempt.Pass?) && (r.Err? ==> r.error == attempt.error)
    ensures r.Ok? ==> r.value.table == TableOf(config)
  {
    if "GoogleServiceAccount" !in config then
      Err(InvalidOperationException("GoogleServiceAccount configuration is missing"))
    else
      var table := TableOf(config);
      match connect(table.projectId, config["GoogleServiceAccount"])
      case Pass => Ok(Repo(table))
      case Fail(e) => Err(e)
  }

  /** With none of the three table settings present the repository uses its defaults. */
  lemma DefaultTableWhenUnconfigured(config: Config)
    requires "BigQuery:ProjectId" !in config && "BigQuery:DatasetId" !in config
    requires "BigQuery:TableId" !in config
    ensures TableOf(config) == TablePath("komplett-bigquery", "ga_event_names", "event_names")
  {
  }

  /** The backquoted `project.dataset.table` name. */
  function QualifiedName(t: TablePath): (s: string)
    ensures |s| >= 4 && s[0] == '`' && s[|s| - 1] == '`'
    ensures s[1..|s| - 1] == t.projectId + "." + t.datasetId + "." + t.tableId
  {
    "`" + t.projectId + "." + t.datasetId + "." + t.tableId + "`"
  }

  function SelectAllQuery(t: TablePath): string {
    "SELECT * FROM " + QualifiedName(t)
  }

  /** One result row: the text of each column, `None` for SQL NULL. */
  datatype Row = Row(eventName: Option<string>, description: Option<string>, format: Option<string>,
                     eventType: Option<string>, tags: Option<string>)

  /** Column text, or `""` for NULL; `deprecated` is not read. */
  function RowToEvent(row: Row): (e: EventDto)
    ensures e.eventName.Some? && e.description.Some? && e.format.Some?
    ensures e.eventType.Some? && e.tags.Some? && e.deprecated.None?
    ensures row.eventName.Some? ==> e.eventName == row.eventName
    ensures row.description.Some? ==> e.description == row.description
    ensures row.format.Some? ==> e.format == row.format
    ensures row.eventType.Some? ==> e.eventType == row.eventType
    ensures row.tags.Some? ==> e.tags == row.tags
    ensures row.eventName.None? ==> e.eventName == Some("")
    ensures row.description.None? ==> e.description == Some("")
    ensures row.format.None? ==> e.format == Some("")
    ensures row.eventType.None? ==> e.eventType == Some("")
    ensures row.tags.None? ==> e.tags == Some("")
  {
    EventDto(Some(row.eventName.GetOr("")), Some(row.description.GetOr("")), Some(row.format.GetOr("")),
             Some(row.eventType.GetOr("")), Some(row.tags.GetOr("")), None)
  }

  /**
   * `GetEventsAsync`: one event per row, in row order; a failing query is
   * wrapped in an `ApplicationException` whose message tells a BigQuery
   * failure from any other.
   */
  function GetEvents(repo: Repo, execute: string -> Result<seq<Row>, Exception>): (r: Result<seq<EventDto>, Exception>)
    ensures var q := execute(SelectAllQuery(repo.table));
            && (r.Ok? <==> q.Ok?)
            && (r.Ok? ==> |r.value| == |q.value| && forall i :: 0 <= i < |q.value| ==> r.value[i] == RowToEvent(q.value[i]))
            && (r.Err? ==> r.error.ApplicationException? && r.error.inner == q.error)
            && (r.Err? ==> (r.error.text == "Failed to retrieve events from BigQuery" <==> q.error.GoogleApiException?))
  {
    match execute(SelectAllQuery(repo.table))
    case Ok(rows) => Ok(seq(|rows|, i requires 0 <= i < |rows| => RowToEvent(rows[i])))
    case Err(e) =>
      if e.GoogleApiException? then Err(ApplicationException("Failed to retrieve events from BigQuery", e))
      else Err(ApplicationException("An unexpected error occurred while retrieving events", e))
  }

  /** The event fields the UPDATE statement deals in. */
  datatype Field = EventNameField | DescriptionField | FormatField | TypeField | TagsField

  function ColumnName(f: Field): string {
    match f
    case EventNameField => "event_name"
    case DescriptionField => "description"
    case FormatField => "format"
    case TypeField => "type"
    case TagsField => "tags"
  }

  function ParameterName(f: Field): string {
    match f
    case EventNameField => "eventName"
    case DescriptionField => "description"
    case FormatField => "format"
    case TypeField => "type"
    case TagsField => "tags"
  }

  /** `column = @param`, or `column = PARSE_JSON(@param)` when `parseJson` holds. */
  datatype Assignment = Assignment(column: Field, param: Field, parseJson: bool)

  /** `UPDATE table SET assignments WHERE keyColumn = @keyParam`. */
  datatype UpdateStatement = UpdateStatement(table: TablePath, assignments: seq<Assignment>,
                                             keyColumn: Field, keyParam: Field)

  /** A string-typed query parameter. */
  datatype Parameter = Parameter(name: Field, value: string)

  datatype Command = Command(statement: UpdateStatement, parameters: seq<Parameter>)

  /** Every parameter the statement refers to. */
  function Referenced(s: UpdateStatement): set<Field> {
    {s.keyParam} + set a | a in s.assignments :: a.param
  }

  function ParamNames(ps: seq<Parameter>): set<Field> {
    set p | p in ps :: p.name
  }

  /** Every parameter the statement uses is bound exactly once, and no other is bound. */
  predicate WellBound(c: Command) {
    && (forall i, j :: 0 <= i < j < |c.parameters| ==> c.parameters[i].name != c.parameters[j].name)
    && ParamNames(c.parameters) == Referenced(c.statement)
  }

  /** The SET list: each documentation column from its own parameter, the JSON columns parsed. */
  const UpdateAssignments := [
    Assignment(DescriptionField, DescriptionField, false),
    Assignment(FormatField, FormatField, true),
    Assignment(TypeField, TypeField, false),
    Assignment(TagsField, TagsField, true)]

  /** The value bound for field `f` of the event named `name`: a null field is sent as `""`. */
  function FieldValue(name: string, ev: EventDto, f: Field): string {
    match f
    case EventNameField => name
    case DescriptionField => ev.description.GetOr("")
    case FormatField => ev.format.GetOr("")
    case TypeField => ev.eventType.GetOr("")
    case TagsField => ev.tags.GetOr("")
  }

  /** The statement `UpdateEventAsync` issues for an event named `name`. */
  function UpdateCommand(repo: Repo, name: string, ev: EventDto): (c: Command)
    ensures c.statement.table == repo.table
    ensures c.statement.keyColumn == EventNameField && c.statement.keyParam == EventNameField
    ensures forall a :: a in c.statement.assignments ==>
              a.column == a.param && a.column != EventNameField
              && (a.parseJson <==> a.column == FormatField || a.column == TagsField)
    ensures (set a | a in c.statement.assignments :: a.column)
            == {DescriptionField, FormatField, TypeField, TagsField}
    ensures ParamNames(c.parameters) == {EventNameField, DescriptionField, FormatField, TypeField, TagsField}
    ensures forall p :: p in c.parameters ==> p.value == FieldValue(name, ev, p.name)
  {
    Command(UpdateStatement(repo.table, UpdateAssignments, EventNameField, EventNameField),
      [Parameter(EventNameField, name),
       Parameter(DescriptionField, ev.description.GetOr("")),
       Parameter(FormatField, ev.format.GetOr("")),
       Parameter(TypeField, ev.eventType.GetOr("")),
       Parameter(TagsField, ev.tags.GetOr(""))])
  }

  /** The statement and its parameters agree: each parameter it uses is bound once, and none else. */
  lemma UpdateCommandWellBound(repo: Repo, name: string, ev: EventDto)
    ensures WellBound(UpdateCommand(repo, name, ev))
  {
    var c := UpdateCommand(repo, name, ev);
    assert Referenced(c.statement) == {EventNameField, DescriptionField, FormatField, TypeField, TagsField};
    assert ParamNames(c.parameters) == {EventNameField, DescriptionField, FormatField, TypeField, TagsField};
  }

  datatype UpdateResult = UpdateResult(issued: Option<Command>, outcome: Outcome<Exception>)

  /**
   * `UpdateEventAsync`: a null event or one without a name is refused before
   * any statement runs; otherwise the UPDATE runs and a failure is wrapped in
   * an `ApplicationException` naming the event.
   */
  function UpdateEvent(repo: Repo, ev: Option<EventDto>, execute: Command -> Outcome<Exception>): (r: UpdateResult)
    ensures ev.None? ==> r == UpdateResult(None, Fail(ArgumentNullException("updatedEvent")))
    ensures ev.Some? && IsNullOrEmpty(ev.value.eventName) ==>
              r == UpdateResult(None, Fail(ArgumentException("Event name cannot be null or empty", Some("updatedEvent"))))
    ensures r.issued.Some? <==> ev.Some? && !IsNullOrEmpty(ev.value.eventName)
    ensures r.issued.Some? ==>
              var name := ev.value.eventName.value;
              var ran := execute(r.issued.value);
              && r.issued.value == UpdateCommand(repo, name, ev.value)
              && (r.outcome.Pass? <==> ran.Pass?)
              && (r.outcome.Fail? ==> r.outcome.error.ApplicationException? && r.outcome.error.inner == ran.error)
              && (r.outcome.Fail? && ran.error.GoogleApiException? ==>
                    r.outcome.error.text == "Failed to update event " + name)
              && (r.outcome.Fail? && !ran.error.GoogleApiException? ==>
                    r.outcome.error.text == "An unexpected error occurred while updating event " + name)
  {
    match ev
    case None => UpdateResult(None, Fail(ArgumentNullException("updatedEvent")))
    case Some(e) =>
      if IsNullOrEmpty(e.eventName) then
        UpdateResult(None, Fail(ArgumentException("Event name cannot be null or empty", Some("updatedEvent"))))
      else
        var name := e.eventName.value;
        var c := UpdateCommand(repo, name, e);
        match execute(c)
        case Pass => UpdateResult(Some(c), Pass)
        case Fail(x) =>
          if x.GoogleApiException? then
            UpdateResult(Some(c), Fail(ApplicationException("Failed to update event " + name, x)))
          else
            UpdateResult(Some(c), Fail(ApplicationException("An unexpected error occurred while updating event " + name, x)))
  }

  /** The message of the refusal for a nameless event contains the stated reason, at its start. */
  lemma NamelessMessage(repo: Repo, ev: EventDto, execute: Command -> Outcome<Exception>)
    requires IsNullOrEmpty(ev.eventName)
    ensures var m := Message(UpdateEvent(repo, Some(ev), execute).outcome.error);
            var reason := "Event name cannot be null or empty";
            |reason| <= |m| && m[..|reason|] == reason
  {
  }

  /**
   * A missing format or tag list is sent to `PARSE_JSON` as `""`, which is not
   * JSON text: such an update can only fail in the database.
   */
  lemma MissingJsonColumnsAreNotJson(name: string, ev: EventDto, f: Field)
    requires f == FormatField || f == TagsField
    requires (f == FormatField && ev.format.None?) || (f == TagsField && ev.tags.None?)
    ensures Parse(FieldValue(name, ev, f)) == None
  {
  }
}
