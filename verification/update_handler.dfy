/**
 * The `UpdateEvent` HTTP function: it reads an event from the request body,
 * checks it, hands it to the repository, and turns every outcome into an HTTP
 * result. Reading the body and the repository call are parameters; the
 * handler only reacts to what they produce.
 */
module UpdateHandler {
  import opened Common
  import opened DotNet
  import opened Dto
  import Repository

  /** What `ReadFromJsonAsync<Event>` produced: an event or null, or the exception it threw. */
  datatype ReadOutcome = Read(body: Option<EventDto>) | ReadFailed(error: Exception)

  datatype HttpResult = OkResult | BadRequest(value: string) | StatusCodeResult(code: int)

  function StatusCode(r: HttpResult): int {
    match r
    case OkResult => 200
    case BadRequest(_) => 400
    case StatusCodeResult(code) => code
  }

  /** The result and the events passed to the repository, in call order. */
  datatype HandlerResult = HandlerResult(result: HttpResult, updates: seq<EventDto>)

  /** The outer `catch` clauses: argument errors become 400 with their message, the rest 500. */
  function Caught(e: Exception): (r: HttpResult)
    ensures IsArgumentException(e) ==> r == BadRequest(Message(e))
    ensures !IsArgumentException(e) ==> r == StatusCodeResult(500)
  {
    if IsArgumentException(e) then BadRequest(Message(e)) else StatusCodeResult(500)
  }

  /** The body passes the handler's own checks. */
  predicate Accepted(read: ReadOutcome) {
    read.Read? && read.body.Some? && !IsNullOrEmpty(read.body.value.eventName)
  }

  /**
   * `RunAsync`: a JSON error in the body gives 400 "Invalid JSON format in
   * request body"; any other read error goes to the outer handlers; a null
   * body and a missing name give their own 400s; otherwise the repository is
   * called once and its success is 200.
   */
  function RunAsync(read: ReadOutcome, update: EventDto -> Outcome<Exception>): (r: HandlerResult)
    ensures Accepted(read) <==> r.updates != []
    ensures Accepted(read) ==> r.updates == [read.body.value]
    ensures r.result == OkResult <==> Accepted(read) && update(read.body.value).Pass?
    ensures Accepted(read) && update(read.body.value).Fail? ==> r.result == Caught(update(read.body.value).error)
    ensures read.ReadFailed? && read.error.JsonException? ==>
              r.result == BadRequest("Invalid JSON format in request body")
    ensures read.ReadFailed? && !read.error.JsonException? ==> r.result == Caught(read.error)
    ensures read == Read(None) ==> r.result == BadRequest("Please pass a valid event in the request body")
    ensures read.Read? && read.body.Some? && IsNullOrEmpty(read.body.value.eventName) ==>
              r.result == BadRequest("EventName is required")
    ensures StatusCode(r.result) in {200, 400, 500}
  {
    match read
    case ReadFailed(e) =>
      if e.JsonException? then HandlerResult(BadRequest("Invalid JSON format in request body"), [])
      else HandlerResult(Caught(e), [])
    case Read(None) => HandlerResult(BadRequest("Please pass a valid event in the request body"), [])
    case Read(Some(ev)) =>
      if IsNullOrEmpty(ev.eventName) then HandlerResult(BadRequest("EventName is required"), [])
      else
        match update(ev)
        case Pass => HandlerResult(OkResult, [ev])
        case Fail(e) => HandlerResult(Caught(e), [ev])
  }

  /** The handler wired to the BigQuery repository. */
  function RunWithRepository(read: ReadOutcome, repo: Repository.Repo,
                             execute: Repository.Command -> Outcome<Exception>): HandlerResult
  {
    RunAsync(read, (ev: EventDto) => Repository.UpdateEvent(repo, Some(ev), execute).outcome)
  }

  /**
   * With the real repository an accepted event gives 200 when the UPDATE runs
   * and 500 when it fails, since the repository wraps every database error in
   * an `ApplicationException`; its own argument checks are never reached,
   * because the handler has already refused what they would refuse.
   */
  lemma RepositoryOutcomes(read: ReadOutcome, repo: Repository.Repo,
                           execute: Repository.Command -> Outcome<Exception>)
    requires Accepted(read)
    ensures var ev := read.body.value;
            var c := Repository.UpdateCommand(repo, ev.eventName.value, ev);
            var r := RunWithRepository(read, repo, execute).result;
            && (execute(c).Pass? ==> r == OkResult)
            && (execute(c).Fail? ==> r == StatusCodeResult(500))
            && Repository.UpdateEvent(repo, Some(ev), execute).issued == Some(c)
  {
  }

  /** An argument exception thrown without a parameter name reaches the caller as its bare message. */
  lemma ArgumentMessagePassesThrough(read: ReadOutcome, update: EventDto -> Outcome<Exception>, text: string)
    requires Accepted(read) && update(read.body.value) == Fail(ArgumentException(text, None))
    ensures RunAsync(read, update).result == BadRequest(text)
  {
  }
}
