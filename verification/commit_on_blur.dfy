/**
 * The text field and the JSON editor that commit on blur: typing changes only
 * the field's own copy of the value, leaving the field hands that copy to the
 * owner, and a new value from the owner replaces the copy.
 *
 * Both components run the same logic; only the underlying input differs.
 */
module CommitOnBlur {
  import opened Common

  /** `external` is the owner's value as last rendered, `internal` the field's copy. */
  datatype Field = Field(external: string, internal: string, focused: bool, hasOnBlur: bool)

  datatype Input =
    | Type(text: string)
    | Focus
    | Blur
    | Render(value: string)

  /** Calls the field makes to its owner. */
  datatype Callback = OnChange(value: string) | OnBlur

  datatype FieldStep = FieldStep(field: Field, calls: seq<Callback>)

  /** The first render: the copy starts as the owner's value. */
  function Mount(value: string, hasOnBlur: bool): (f: Field)
    ensures f.internal == f.external == value && !f.focused
  {
    Field(value, value, false, hasOnBlur)
  }

  function React(f: Field, i: Input): (r: FieldStep)
    ensures i.Type? ==> r.calls == [] && r.field.internal == i.text && r.field.external == f.external
                        && r.field.focused
    ensures i.Focus? ==> r.calls == [] && r.field == f.(focused := true)
    ensures i.Blur? ==> r.field.internal == f.internal && r.field.external == f.external && !r.field.focused
                        && |r.calls| == (if f.hasOnBlur then 2 else 1) && r.calls[0] == OnChange(f.internal)
                        && (f.hasOnBlur ==> r.calls[1] == OnBlur)
    ensures i.Render? ==> r.calls == [] && r.field.external == i.value
    ensures i.Render? && i.value != f.external ==> r.field.internal == i.value
    ensures i.Render? && i.value == f.external ==> r.field == f
    ensures r.field.hasOnBlur == f.hasOnBlur
  {
    match i
    case Type(text) =>
      FieldStep(f.(internal := text, focused := true), [])
    case Focus =>
      FieldStep(f.(focused := true), [])
    case Blur =>
      FieldStep(f.(focused := false), [OnChange(f.internal)] + (if f.hasOnBlur then [OnBlur] else []))
    case Render(value) =>
      if value != f.external then
        var internal := if value != f.internal then value else f.internal;
        FieldStep(f.(external := value, internal := internal), [])
      else
        FieldStep(f, [])
  }

  /** Apply inputs in order, collecting the calls made. */
  function Feed(f: Field, inputs: seq<Input>): (r: FieldStep)
    decreases |inputs|
  {
    if inputs == [] then FieldStep(f, [])
    else
      var first := React(f, inputs[0]);
      var rest := Feed(first.field, inputs[1..]);
      FieldStep(rest.field, first.calls + rest.calls)
  }

  predicate IsTyping(i: Input) {
    i.Type? || i.Focus?
  }

  /** The text of the last `Type` among `inputs`, or `current` when there is none. */
  function LastTyped(current: string, inputs: seq<Input>): string
    decreases |inputs|
  {
    if inputs == [] then current
    else LastTyped(if inputs[0].Type? then inputs[0].text else current, inputs[1..])
  }

  /** While the user types nothing reaches the owner, and the copy holds the last text typed. */
  lemma {:induction false} TypingIsLocal(f: Field, inputs: seq<Input>)
    requires forall k :: 0 <= k < |inputs| ==> IsTyping(inputs[k])
    ensures Feed(f, inputs).calls == []
    ensures Feed(f, inputs).field.external == f.external
    ensures Feed(f, inputs).field.internal == LastTyped(f.internal, inputs)
    decreases |inputs|
  {
    if inputs != [] {
      var first := React(f, inputs[0]);
      assert forall k :: 0 <= k < |inputs| - 1 ==> inputs[1..][k] == inputs[k + 1];
      TypingIsLocal(first.field, inputs[1..]);
    }
  }

  /**
   * An owner that stores what the field hands it and renders it back leaves
   * the field in agreement with the owner.
   */
  lemma BlurThenEchoSyncs(f: Field)
    ensures var blurred := React(f, Blur);
            var echoed := React(blurred.field, Render(f.internal)).field;
            echoed.external == echoed.internal == f.internal
  {
  }

  /** Rendering the value the owner already had keeps whatever the user typed. */
  lemma SameRenderKeepsTyping(f: Field, text: string)
    ensures var typed := React(f, Type(text)).field;
            React(typed, Render(f.external)).field.internal == text
  {
  }
}
