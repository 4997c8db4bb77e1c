/**
 * The edit workflow of one event in the list: entering edit mode seeds a form
 * buffer from the event, field changes patch the buffer, saving posts the
 * buffer and, on success, leaves edit mode and reloads the list.
 *
 * Two variants of the workflow exist side by side. `Wired` is the single
 * component that holds the whole workflow; its saving flag stays set until the
 * reload finishes. `Split` is the pair of preview and edit components whose
 * saving flag lives in the edit component, so the flag disappears with that
 * component when a successful save leaves edit mode; its seed also carries the
 * `deprecated` flag.
 *
 * An action whose control is not on screen or is disabled changes nothing.
 * Network calls are not made here: a step returns the calls it starts as
 * effects, and their completions come back as actions.
 */
module Editor {
  import opened Common
  import opened Json
  import opened JsonParser
  import opened JsonPrinter
  import opened JsonRoundTrip
  import opened Events
  import opened Tags

  datatype Variant = Wired | Split

  /** The choices of the event type selector. */
  datatype TypeOption = Clientside | Serverside

  function TypeName(o: TypeOption): string {
    match o
    case Clientside => "Clientside"
    case Serverside => "Serverside"
  }

  /** Where the save request is: nothing pending, posting `sent`, or reloading the list after success. */
  datatype Request = Idle | Saving(sent: Event) | Refetching

  datatype ItemState = ItemState(variant: Variant, editMode: bool, form: Event, request: Request)

  /** What became of a posted request: an HTTP status, or no response at all. */
  datatype Reply = Status(code: int) | NetworkFailure

  /** A partial update of the form buffer; `None` leaves a field as it is. */
  datatype Patch = Patch(description: Option<string>, format: Option<string>, eventType: Option<string>)

  datatype Action =
    | EnterEdit(item: Event)
    | Cancel
    | SelectType(choice: Option<TypeOption>)
    | EditDescription(text: string)
    | EditFormat(text: string)
    | EditTags(tags: seq<string>)
    | Save
    | Settle(reply: Reply)
    | RefetchDone

  datatype Effect = Post(body: string) | Refetch

  datatype StepResult = StepResult(state: ItemState, effects: seq<Effect>)

  /** The form buffer before the first edit. */
  const DefaultForm := Event("", "", "{}", "", "[]", None)

  function Init(variant: Variant): (s: ItemState)
    ensures !s.editMode && s.request == Idle && s.form == DefaultForm
  {
    ItemState(variant, false, DefaultForm, Idle)
  }

  /** `a || b` on strings. */
  function OrElse(a: string, b: string): (r: string)
    ensures r == (if a != "" then a else b)
  {
    if a != "" then a else b
  }

  /**
   * The buffer `handleEditMode` builds from `item`: empty description and
   * type, and `{}` and `[]` standing in for an empty format and tag list.
   */
  function Seed(variant: Variant, item: Event): (f: Event)
    ensures f.eventName == item.eventName
    ensures f.description == item.description && f.eventType == item.eventType
    ensures f.format != "" && (item.format != "" ==> f.format == item.format)
    ensures f.tags != "" && (item.tags != "" ==> f.tags == item.tags)
    ensures item.format == "" ==> f.format == "{}"
    ensures item.tags == "" ==> f.tags == "[]"
    ensures f.deprecated == (if variant == Wired then None else Some(IsDeprecated(item)))
  {
    Event(item.eventName, OrElse(item.description, ""), OrElse(item.format, "{}"),
          OrElse(item.eventType, ""), OrElse(item.tags, "[]"),
          if variant == Wired then None else Some(item.deprecated.Some? && item.deprecated.value))
  }

  /** `{...prev, ...state}`. */
  function Merge(form: Event, p: Patch): (f: Event)
    ensures f.description == p.description.GetOr(form.description)
    ensures f.format == p.format.GetOr(form.format)
    ensures f.eventType == p.eventType.GetOr(form.eventType)
    ensures f.eventName == form.eventName && f.tags == form.tags && f.deprecated == form.deprecated
  {
    form.(description := p.description.GetOr(form.description),
          format := p.format.GetOr(form.format),
          eventType := p.eventType.GetOr(form.eventType))
  }

  /** The patch that applies `p` and then `q`: `q`'s fields win. */
  function Then(p: Patch, q: Patch): Patch {
    Patch(if q.description.Some? then q.description else p.description,
          if q.format.Some? then q.format else p.format,
          if q.eventType.Some? then q.eventType else p.eventType)
  }

  /** Two merges in a row are one merge of the combined patch; the empty patch changes nothing. */
  lemma MergeComposes(form: Event, p: Patch, q: Patch)
    ensures Merge(Merge(form, p), q) == Merge(form, Then(p, q))
    ensures Merge(form, Patch(None, None, None)) == form
  {
  }

  /** The saving flag that disables Cancel and Save. */
  predicate Loading(s: ItemState) {
    match s.variant
    case Wired => s.request != Idle
    case Split => s.request.Saving?
  }

  predicate Enabled(s: ItemState, a: Action) {
    match a
    case EnterEdit(_) => !s.editMode
    case Cancel => s.editMode && !Loading(s)
    case SelectType(_) => s.editMode
    case EditDescription(_) => s.editMode
    case EditFormat(_) => s.editMode
    case EditTags(_) => s.editMode
    case Save => s.editMode && !Loading(s)
    case Settle(_) => s.request.Saving?
    case RefetchDone => s.request.Refetching?
  }

  /** The object `JSON.stringify(event)` writes, in the key order the seed gives it. */
  function BodyOf(e: Event): (v: Value)
    ensures WellFormed(v)
  {
    JObject([Member("eventName", JString(e.eventName)),
             Member("description", JString(e.description)),
             Member("format", JString(e.format)),
             Member("type", JString(e.eventType)),
             Member("tags", JString(e.tags))]
            + (match e.deprecated
               case None => []
               case Some(b) => [Member("deprecated", JBool(b))]))
  }

  /** The request body of `updateEvent(event)`. */
  function RequestBody(e: Event): (text: string)
    ensures Parse(text) == Some(BodyOf(e))
  {
    SerializeRoundTrip(BodyOf(e), "");
    Stringify(BodyOf(e))
  }

  /**
   * `updateEvent(event)` resolves, always to `true`, exactly when the event
   * has a name, so that the request is posted, and the reply has a 2xx status;
   * every other case rejects.
   */
  predicate UpdateSucceeds(e: Event, reply: Reply) {
    e.eventName != "" && reply.Status? && 200 <= reply.code <= 299
  }

  function Step(s: ItemState, a: Action): (r: StepResult)
    ensures !Enabled(s, a) ==> r == StepResult(s, [])
    ensures r.state.variant == s.variant
    ensures forall i :: 0 <= i < |r.effects| && r.effects[i].Post? ==>
              a == Save && s.form.eventName != "" && r.effects[i].body == RequestBody(s.form)
  {
    if !Enabled(s, a) then StepResult(s, [])
    else
      match a
      case EnterEdit(item) =>
        StepResult(s.(editMode := true, form := Seed(s.variant, item)), [])
      case Cancel =>
        StepResult(s.(editMode := false), [])
      case SelectType(choice) =>
        var t := match choice case None => "" case Some(o) => TypeName(o);
        StepResult(s.(form := Merge(s.form, Patch(None, None, Some(t)))), [])
      case EditDescription(text) =>
        StepResult(s.(form := Merge(s.form, Patch(Some(text), None, None))), [])
      case EditFormat(text) =>
        StepResult(s.(form := Merge(s.form, Patch(None, Some(text), None))), [])
      case EditTags(tags) =>
        StepResult(s.(form := s.form.(tags := UpdateTags(tags))), [])
      case Save =>
        StepResult(s.(request := Saving(s.form)),
                   if s.form.eventName != "" then [Post(RequestBody(s.form))] else [])
      case Settle(reply) =>
        if UpdateSucceeds(s.request.sent, reply) then
          var next := if s.variant == Wired then Refetching else Idle;
          StepResult(s.(editMode := false, request := next), [Refetch])
        else
          StepResult(s.(request := Idle), [])
      case RefetchDone =>
        StepResult(s.(request := Idle), [])
  }

  /** The states the workflow can be in. */
  predicate Valid(s: ItemState) {
    && (s.request.Saving? ==> s.editMode)
    && (s.variant == Split ==> !s.request.Refetching?)
  }

  lemma StepKeepsValid(s: ItemState, a: Action)
    requires Valid(s)
    ensures Valid(Step(s, a).state)
  {
  }

  /** Run a sequence of actions, collecting the effects they start. */
  function Run(s: ItemState, actions: seq<Action>): (r: StepResult)
    decreases |actions|
  {
    if actions == [] then StepResult(s, [])
    else
      var first := Step(s, actions[0]);
      var rest := Run(first.state, actions[1..]);
      StepResult(rest.state, first.effects + rest.effects)
  }

  lemma {:induction false} RunKeepsValid(s: ItemState, actions: seq<Action>)
    requires Valid(s)
    ensures Valid(Run(s, actions).state)
    decreases |actions|
  {
    if actions != [] {
      StepKeepsValid(s, actions[0]);
      RunKeepsValid(Step(s, actions[0]).state, actions[1..]);
    }
  }

  /** Entering edit mode always shows the item's own values, whatever the buffer held. */
  lemma EnterEditSeeds(s: ItemState, item: Event)
    requires !s.editMode
    ensures Step(s, EnterEdit(item)).state.form == Seed(s.variant, item)
    ensures Step(s, EnterEdit(item)).state.editMode
  {
  }

  /**
   * Cancel leaves edit mode and posts nothing; the buffer is kept as it is.
   * Cancelling and editing again discards every change made to the buffer.
   */
  lemma CancelDiscardsEdits(s: ItemState, item: Event)
    requires s.editMode && !Loading(s)
    ensures var r := Step(s, Cancel);
            !r.state.editMode && r.effects == [] && r.state.form == s.form && r.state.request == s.request
    ensures var after := Step(Step(s, Cancel).state, EnterEdit(item)).state;
            after == s.(form := Seed(s.variant, item))
  {
  }

  /** While a save is pending neither Cancel nor a second Save does anything. */
  lemma SavingLocksButtons(s: ItemState, a: Action)
    requires s.request.Saving?
    requires a == Cancel || a == Save
    ensures Step(s, a) == StepResult(s, [])
  {
  }

  lemma RunOne(s: ItemState, a: Action)
    ensures Run(s, [a]) == Step(s, a)
  {
    assert [a][1..] == [];
  }

  lemma RunCons(s: ItemState, a: Action, rest: seq<Action>)
    ensures var first := Step(s, a);
            var r := Run(first.state, rest);
            Run(s, [a] + rest) == StepResult(r.state, first.effects + r.effects)
  {
    assert ([a] + rest)[0] == a;
    assert ([a] + rest)[1..] == rest;
  }

  /** Save on an idle, named buffer posts it and waits for the reply. */
  lemma SaveStep(s: ItemState)
    requires s.editMode && s.request == Idle && s.form.eventName != ""
    ensures Step(s, Save) == StepResult(s.(request := Saving(s.form)), [Post(RequestBody(s.form))])
  {
  }

  /** A 2xx reply to a named save leaves edit mode and reloads the list. */
  lemma SettleOkStep(s: ItemState, code: int)
    requires s.editMode && s.request.Saving? && s.request.sent.eventName != ""
    requires 200 <= code <= 299
    ensures Step(s, Settle(Status(code))) ==
            StepResult(s.(editMode := false, request := if s.variant == Wired then Refetching else Idle), [Refetch])
  {
  }

  /**
   * A successful save: the buffer is posted, edit mode ends, the list is
   * reloaded, and the workflow is idle once the reload is done.
   */
  lemma SaveSucceeds(s: ItemState, code: int)
    requires s.editMode && s.request == Idle && s.form.eventName != ""
    requires 200 <= code <= 299
    ensures var r := Run(s, [Save, Settle(Status(code))] + (if s.variant == Wired then [RefetchDone] else []));
            r.effects == [Post(RequestBody(s.form)), Refetch]
            && r.state == s.(editMode := false, request := Idle)
  {
    var s1 := s.(request := Saving(s.form));
    SaveStep(s);
    SettleOkStep(s1, code);
    var s2 := s1.(editMode := false, request := if s.variant == Wired then Refetching else Idle);
    var tail := if s.variant == Wired then [RefetchDone] else [];
    var final := s.(editMode := false, request := Idle);
    assert Run(s2, tail) == StepResult(final, []) by {
      if s.variant == Wired {
        RunOne(s2, RefetchDone);
      }
    }
    RunCons(s1, Settle(Status(code)), tail);
    assert [Save, Settle(Status(code))] + tail == [Save] + ([Settle(Status(code))] + tail);
    RunCons(s, Save, [Settle(Status(code))] + tail);
  }

  /** A failed save changes nothing: the form and edit mode are as they were before Save. */
  lemma SaveFails(s: ItemState, reply: Reply)
    requires s.editMode && s.request == Idle
    requires !UpdateSucceeds(s.form, reply)
    ensures Run(s, [Save, Settle(reply)]).state == s
  {
    var actions := [Save, Settle(reply)];
    var s1 := Step(s, Save).state;
    assert s1 == s.(request := Saving(s.form));
    assert Step(s1, Settle(reply)).state == s;
    assert actions[1..] == [Settle(reply)];
    assert actions[1..][1..] == [];
    assert Run(s, []) == StepResult(s, []);
    assert Run(s1, actions[1..]).state == s;
  }

  /** Without an event name nothing is posted and the save can only fail. */
  lemma NamelessSaveNeverPosts(s: ItemState, reply: Reply)
    requires s.editMode && s.request == Idle && s.form.eventName == ""
    ensures Step(s, Save).effects == []
    ensures !UpdateSucceeds(Step(s, Save).state.request.sent, reply)
  {
  }

  /**
   * A tag input change touches only the buffer's tags, and the tag input then
   * shows the normalised list.
   */
  lemma TagsInputShowsNormalized(s: ItemState, tags: seq<string>)
    requires s.editMode
    ensures var r := Step(s, EditTags(tags));
            && r.effects == []
            && r.state.editMode == s.editMode && r.state.request == s.request
            && r.state.form.eventName == s.form.eventName && r.state.form.description == s.form.description
            && r.state.form.format == s.form.format && r.state.form.eventType == s.form.eventType
            && r.state.form.deprecated == s.form.deprecated
    ensures var f := Step(s, EditTags(tags)).state.form;
            Formatter.SafelyParseJson(f.tags, []) == StringArray(NormalizeTags(tags)).items
  {
  }
}
