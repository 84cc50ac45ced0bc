/**
 * The form's field factory: from a field descriptor to the wrapper `div` the form appends,
 * with the control, its label and, for a select, its options. The DOM is abstracted to the
 * values below; `Element` is what the validator and the serialiser later read from
 * `form.elements`.
 */
module FormFields {
  import opened Results
  import opened JsText
  import opened Descriptor
  import opened FieldIds
  import opened HtmlRules

  // ---------------------------------------------------------------- page records

  datatype Tag = Input | TextArea | Select | Button | FieldSet

  /**
   * One form control. `kind` is the DOM `type` property: the normalised input type for an
   * `input`, "textarea", "select-one", "submit" for the button, "fieldset".
   */
  datatype Element = Element(
    tag: Tag,
    kind: string,
    id: string,
    name: string,
    value: string,
    required: bool,
    disabled: bool,
    checked: bool,
    touched: bool)

  /** A `label`: its own id, its text, the id it is `for`, and the `data-required` marker. */
  datatype Label = Label(id: string, text: string, forId: string, required: bool)

  datatype SelectOption = SelectOption(text: string, value: string, selected: bool, disabled: bool)

  /** One entry of a remote option list: its Option and Value columns. */
  datatype RemoteOption = RemoteOption(Option: string, Value: string)

  /** What a wrapper holds, in document order. */
  datatype Content =
    | Heading(level: nat, text: string, elementId: string)
    | Paragraph(text: string, elementId: string)
    | LabelledSelect(fieldLabel: Label, field: Element, options: seq<SelectOption>)
    | LabelledTextArea(fieldLabel: Label, field: Element)
    | LabelledInput(fieldLabel: Label, field: Element, labelAfter: bool)
    | ToggleSwitch(fieldLabel: Label, field: Element)
    | SubmitButton(text: string, field: Element)
    | FieldSetBox(legend: Option<string>, field: Element)

  /** The wrapper `div`: the Style as its class name, the classes added to it, its `data-fieldset`. */
  datatype Wrapper = Wrapper(style: string, classes: seq<string>, fieldset: string, content: Content)

  /**
   * A creator's result: a wrapper; for "confirmation", none (the form records a target
   * instead); or the exception the creator raised, which rejects the whole form.
   */
  datatype Created = Wrapped(wrapper: Wrapper) | Confirmation(target: string) | Thrown

  /** The controls a content contributes to `form.elements` (an image input is not listed there). */
  function Controls(c: Content): (r: seq<Element>)
    ensures |r| <= 1
  {
    match c
    case Heading(_, _, _) => []
    case Paragraph(_, _) => []
    case LabelledInput(_, f, _) => if f.kind == "image" then [] else [f]
    case _ => [c.field]
  }

  // ---------------------------------------------------------------- Mandatory

  /** `Mandatory.toLowerCase()` is "true" or "x". */
  predicate IsMandatory(flag: string) {
    var f := Lower(flag);
    f == "true" || f == "x"
  }

  /**
   * The spellings that make a field required: "true" in any mix of cases, "x" or "X".
   * Everything else, the empty string included, leaves the field optional.
   */
  lemma MandatorySpellings(flag: string)
    ensures IsMandatory(flag) <==>
      || (|flag| == 4 && flag[0] in "tT" && flag[1] in "rR" && flag[2] in "uU" && flag[3] in "eE")
      || flag == "x" || flag == "X"
  {
    var f := Lower(flag);
    if |flag| == 4 {
      assert f == "true" <==> f[0] == 't' && f[1] == 'r' && f[2] == 'u' && f[3] == 'e';
    } else if |flag| == 1 {
      assert f == "x" <==> f[0] == 'x';
      assert flag == "x" <==> flag[0] == 'x';
      assert flag == "X" <==> flag[0] == 'X';
    }
  }

  // ---------------------------------------------------------------- dispatch

  datatype Creator =
    | SelectCreator | HeadingCreator | PlaintextCreator | TextAreaCreator | ToggleCreator
    | SubmitCreator | ConfirmationCreator | FieldsetCreator | RadioCreator | InputCreator

  /** `FIELD_CREATOR_FUNCTIONS`, keyed by the lower-cased Type. */
  const CreatorTable: map<string, Creator> := map[
    "select" := SelectCreator,
    "heading" := HeadingCreator,
    "plaintext" := PlaintextCreator,
    "text-area" := TextAreaCreator,
    "toggle" := ToggleCreator,
    "submit" := SubmitCreator,
    "confirmation" := ConfirmationCreator,
    "fieldset" := FieldsetCreator,
    "radio" := RadioCreator]

  /** The creator for a Type: looked up lower-cased, falling back to a plain input. */
  function CreatorFor(fieldType: string): (c: Creator)
    ensures Lower(fieldType) in CreatorTable ==> c == CreatorTable[Lower(fieldType)]
    ensures c == InputCreator <==> Lower(fieldType) !in CreatorTable
  {
    var key := Lower(fieldType);
    if key in CreatorTable then CreatorTable[key] else InputCreator
  }

  /** Dispatch ignores the case of the Type. */
  lemma DispatchIgnoresCase(fieldType: string)
    ensures CreatorFor(Lower(fieldType)) == CreatorFor(fieldType)
  {
    LowerIdempotent(fieldType);
  }

  /**
   * Dispatch as the table lookup is written: the Type's lower-cased spelling is read as a
   * property of the table, so it also finds what every object inherits.
   */
  function DispatchAsWritten(fieldType: string): DispatchOutcome<Creator> {
    TableDispatchAsWritten(CreatorTable, InputCreator, fieldType)
  }

  /**
   * The lookup as written departs from the fallback for two unknown Types: "constructor" is
   * dropped without a field and "__proto__" makes the whole form fail to build.
   */
  lemma DispatchAsWrittenMisroutes()
    ensures CreatorFor("constructor") == InputCreator && DispatchAsWritten("constructor") == NoWrapper
    ensures CreatorFor("__proto__") == InputCreator && DispatchAsWritten("__proto__") == Throws
  {
    assert Lower("constructor") == "constructor";
    assert Lower("__proto__") == "__proto__";
  }

  /** For every other Type the lookup as written and the own-key lookup agree. */
  lemma DispatchAsWrittenAgreesElsewhere(fieldType: string)
    requires Lower(fieldType) != "constructor" && Lower(fieldType) != "__proto__"
    ensures DispatchAsWritten(fieldType) == Runs(CreatorFor(fieldType))
  {
  }

  // ---------------------------------------------------------------- select options

  /** `addOption`: text and value trimmed; `selected` when the trimmed value is the descriptor's Value. */
  function MakeOption(text: string, value: string, current: string): SelectOption {
    SelectOption(Trim(text), Trim(value), Trim(value) == current, false)
  }

  predicate IsRemote(options: string) {
    "https://" <= options
  }

  /**
   * The remote list used for a descriptor: fetched only for an Options URL starting
   * "https://". `fetch` answers `None` when the URL does not parse or the request or its
   * JSON fails; the creator then throws.
   */
  function FetchedFor(fd: FieldDescriptor, fetch: string -> Option<seq<RemoteOption>>): Option<seq<RemoteOption>> {
    if fd.Options != "" && IsRemote(fd.Options) then fetch(fd.Options) else Some([])
  }

  /** A remote entry as a `{ text, value }` pair: the Option, and the Value or else the Option. */
  function RemotePair(o: RemoteOption): (string, string) {
    (o.Option, OrElse(o.Value, o.Option))
  }

  /** A comma-separated piece as a `{ text, value }` pair: both the trimmed piece. */
  function PiecePair(piece: string): (string, string) {
    (Trim(piece), Trim(piece))
  }

  function RemotePairs(fetched: seq<RemoteOption>): (r: seq<(string, string)>)
    ensures |r| == |fetched|
    ensures forall k :: 0 <= k < |r| ==> r[k] == RemotePair(fetched[k])
  {
    if fetched == [] then [] else RemotePairs(fetched[..|fetched| - 1]) + [RemotePair(fetched[|fetched| - 1])]
  }

  function PiecePairs(pieces: seq<string>): (r: seq<(string, string)>)
    ensures |r| == |pieces|
    ensures forall k :: 0 <= k < |r| ==> r[k] == PiecePair(pieces[k])
  {
    if pieces == [] then [] else PiecePairs(pieces[..|pieces| - 1]) + [PiecePair(pieces[|pieces| - 1])]
  }

  /** The `{ text, value }` pairs before `addOption`: the remote entries, or the comma-separated pieces. */
  function OptionSource(fd: FieldDescriptor, fetched: seq<RemoteOption>): seq<(string, string)> {
    if fd.Options == "" then []
    else if IsRemote(fd.Options) then RemotePairs(fetched)
    else PiecePairs(Split(fd.Options, ','))
  }

  /** `addOption` applied to each pair in turn. */
  function AddedOptions(source: seq<(string, string)>, current: string): (r: seq<SelectOption>)
    ensures |r| == |source|
    ensures forall k :: 0 <= k < |r| ==> r[k] == MakeOption(source[k].0, source[k].1, current)
  {
    if source == [] then []
    else AddedOptions(source[..|source| - 1], current) + [MakeOption(source[|source| - 1].0, source[|source| - 1].1, current)]
  }

  function PlaceholderOptions(fd: FieldDescriptor): (r: seq<SelectOption>)
    ensures |r| == if fd.Placeholder != "" then 1 else 0
  {
    if fd.Placeholder != "" then [MakeOption(fd.Placeholder, "", fd.Value).(disabled := true)] else []
  }

  /** The options a select ends up with, in order: the disabled placeholder first, then one per source pair. */
  function OptionList(fd: FieldDescriptor, fetched: seq<RemoteOption>): (opts: seq<SelectOption>)
    ensures |opts| == |PlaceholderOptions(fd)| + |OptionSource(fd, fetched)|
    ensures forall k :: 0 <= k < |opts| ==> (opts[k].selected <==> opts[k].value == fd.Value)
  {
    PlaceholderOptions(fd) + AddedOptions(OptionSource(fd, fetched), fd.Value)
  }

  /**
   * `createSelect`'s option building: `options` filled from the remote list or the split
   * string, then each one added to the select through `addOption`.
   */
  method BuildOptions(fd: FieldDescriptor, fetched: seq<RemoteOption>) returns (opts: seq<SelectOption>)
    ensures opts == OptionList(fd, fetched)
  {
    opts := [];
    if fd.Placeholder != "" {
      var ph := MakeOption(fd.Placeholder, "", fd.Value);
      opts := opts + [ph.(disabled := true)];
    }
    if fd.Options != "" {
      var source: seq<(string, string)>;
      if IsRemote(fd.Options) {
        source := CollectRemote(fetched);
      } else {
        source := PiecePairs(Split(fd.Options, ','));
      }
      opts := AddAll(opts, source, fd.Value);
    }
  }

  /** `options = data.map(...)` for a fetched list. */
  method CollectRemote(fetched: seq<RemoteOption>) returns (source: seq<(string, string)>)
    ensures source == RemotePairs(fetched)
  {
    source := [];
    var j := 0;
    while j < |fetched|
      invariant 0 <= j <= |fetched|
      invariant source == RemotePairs(fetched[..j])
    {
      assert fetched[..j + 1][..j] == fetched[..j];
      source := source + [RemotePair(fetched[j])];
      j := j + 1;
    }
    assert fetched[..j] == fetched;
  }

  /** `options.forEach(addOption)`: one option appended per pair, in order. */
  method AddAll(before: seq<SelectOption>, source: seq<(string, string)>, current: string)
    returns (opts: seq<SelectOption>)
    ensures opts == before + AddedOptions(source, current)
  {
    opts := before;
    var i := 0;
    while i < |source|
      invariant 0 <= i <= |source|
      invariant opts == before + AddedOptions(source[..i], current)
    {
      assert source[..i + 1][..i] == source[..i];
      opts := opts + [MakeOption(source[i].0, source[i].1, current)];
      i := i + 1;
    }
    assert source[..i] == source;
  }

  /**
   * A comma-separated Options string gives one option per piece, in order, with text and
   * value both the trimmed piece, after the placeholder when there is one.
   */
  lemma CommaOptionsInOrder(fd: FieldDescriptor, fetched: seq<RemoteOption>, i: nat)
    requires fd.Options != "" && !IsRemote(fd.Options)
    requires i < |Split(fd.Options, ',')|
    ensures var pieces := Split(fd.Options, ',');
            var off := if fd.Placeholder != "" then 1 else 0;
            var opts := OptionList(fd, fetched);
            && |opts| == off + |pieces|
            && opts[off + i] == SelectOption(Trim(pieces[i]), Trim(pieces[i]), Trim(pieces[i]) == fd.Value, false)
  {
    var pieces := Split(fd.Options, ',');
    TrimIdempotent(pieces[i]);
    var source := OptionSource(fd, fetched);
    assert source[i] == PiecePair(pieces[i]);
    var off := |PlaceholderOptions(fd)|;
    assert OptionList(fd, fetched)[off + i] == AddedOptions(source, fd.Value)[i];
  }

  /** With a Placeholder, the first option is disabled, carries the trimmed placeholder and an empty value. */
  lemma PlaceholderComesFirst(fd: FieldDescriptor, fetched: seq<RemoteOption>)
    requires fd.Placeholder != ""
    ensures var opts := OptionList(fd, fetched);
            |opts| >= 1 && opts[0] == SelectOption(Trim(fd.Placeholder), "", fd.Value == "", true)
  {
    assert Trim("") == "";
  }

  /** Index of the last option marked selected. */
  function LastSelected(opts: seq<SelectOption>): (r: Option<nat>)
    ensures r.Some? ==> r.value < |opts| && opts[r.value].selected
                        && forall k :: r.value < k < |opts| ==> !opts[k].selected
    ensures r.None? ==> forall k :: 0 <= k < |opts| ==> !opts[k].selected
  {
    if opts == [] then None
    else if opts[|opts| - 1].selected then Some(|opts| - 1)
    else LastSelected(opts[..|opts| - 1])
  }

  /**
   * The select's value once its options are in: the last option inserted selected wins;
   * with none, the first option (the placeholder, selected before it was disabled, or the
   * first real option); with no options, the empty string.
   */
  function SelectedValue(opts: seq<SelectOption>): string {
    match LastSelected(opts)
    case Some(k) => opts[k].value
    case None => if opts != [] then opts[0].value else ""
  }

  /** When some option carries the descriptor's Value, the select reports that Value. */
  lemma SelectReportsMatchingValue(fd: FieldDescriptor, fetched: seq<RemoteOption>, k: nat)
    requires k < |OptionList(fd, fetched)| && OptionList(fd, fetched)[k].value == fd.Value
    ensures SelectedValue(OptionList(fd, fetched)) == fd.Value
  {
    var opts := OptionList(fd, fetched);
    assert opts[k].selected;
    match LastSelected(opts)
    case Some(j) =>
    case None =>
  }

  // ---------------------------------------------------------------- per-type rendering

  /** The known input types; any other `type` reads back as "text". */
  const InputTypes: set<string> := {
    "button", "checkbox", "color", "date", "datetime-local", "email", "file", "hidden", "image",
    "month", "number", "password", "radio", "range", "reset", "search", "submit", "tel", "text",
    "time", "url", "week"}

  /** `input.type` after `field.type = fd.Type`: matched without regard to case, "text" when unknown. */
  function InputKind(fieldType: string): (kind: string)
    ensures kind in InputTypes
    ensures Lower(fieldType) in InputTypes ==> kind == Lower(fieldType)
    ensures Lower(fieldType) !in InputTypes ==> kind == "text"
  {
    var t := Lower(fieldType);
    if t in InputTypes then t else "text"
  }

  /** `createInput` puts the label after the control for the raw Types "radio" and "checkbox" only. */
  predicate LabelAfterInput(fieldType: string) {
    fieldType == "radio" || fieldType == "checkbox"
  }

  predicate NeedsLabel(c: Creator) {
    c in {SelectCreator, TextAreaCreator, ToggleCreator, RadioCreator, InputCreator}
  }

  function WrapperOf(fd: FieldDescriptor, extra: seq<string>, content: Content): Wrapper {
    Wrapper(fd.Style, ["field-wrapper", fd.Type + "-wrapper"] + extra, fd.Fieldset, content)
  }

  /** `createLabel`: Label or Name as text, `for` the field's id, marked required by the Mandatory test. */
  function LabelOf(fd: FieldDescriptor, labelId: string): Label {
    Label(labelId, OrElse(fd.Label, fd.Name), fd.Id, IsMandatory(fd.Mandatory))
  }

  /** `setCommonAttributes`: id, name, required by the Mandatory test, value. */
  function CommonElement(tag: Tag, kind: string, fd: FieldDescriptor, value: string): Element {
    Element(tag, kind, fd.Id, fd.Name, value, IsMandatory(fd.Mandatory), false, false, false)
  }

  /**
   * The value `createInput` leaves in its input: `field.type` is set before `field.value`,
   * so the Value is sanitised by the input's type. Radios, checkboxes and hidden inputs keep
   * it as it is.
   */
  function InputValue(fd: FieldDescriptor): (v: string)
    ensures InputKind(fd.Type) in {"radio", "checkbox", "hidden"} ==> v == fd.Value
  {
    Sanitized(InputKind(fd.Type), fd.Value)
  }

  /** A radio's value: the input's value, else the Label, else "on". */
  function RadioValue(fd: FieldDescriptor): string {
    OrElse(InputValue(fd), OrElse(fd.Label, "on"))
  }

  /** A toggle's value: the input's value, else "on". */
  function ToggleValue(fd: FieldDescriptor): string {
    OrElse(InputValue(fd), "on")
  }

  /** `field.value = fd.Value` on a file input throws unless the Value is empty. */
  predicate FileValueRejected(fd: FieldDescriptor) {
    InputKind(fd.Type) == "file" && fd.Value != ""
  }

  /**
   * Whether a creator throws before it returns: `new URL(fd.Value)` for a confirmation; for
   * the creators built on `createInput`, a file input given a Value; for every creator
   * that builds a wrapper, a `${Type}-wrapper` class `classList.add` refuses.
   */
  predicate CreatorThrows(c: Creator, fd: FieldDescriptor) {
    match c
    case ConfirmationCreator => !HasUrlScheme(fd.Value)
    case InputCreator => FileValueRejected(fd) || !ValidToken(fd.Type + "-wrapper")
    case RadioCreator => FileValueRejected(fd) || !ValidToken(fd.Type + "-wrapper")
    case ToggleCreator => FileValueRejected(fd) || !ValidToken(fd.Type + "-wrapper")
    case _ => !ValidToken(fd.Type + "-wrapper")
  }

  /** What each creator builds for a descriptor whose Id is set, given its label id and options. */
  function Render(c: Creator, fd: FieldDescriptor, labelId: string, options: seq<SelectOption>): Created {
    if CreatorThrows(c, fd) then Thrown
    else match c
    case SelectCreator =>
      Wrapped(WrapperOf(fd, [], LabelledSelect(LabelOf(fd, labelId),
        CommonElement(Select, "select-one", fd, SelectedValue(options)), options)))
    case HeadingCreator =>
      Wrapped(WrapperOf(fd, [], Heading(HeadingLevel(fd.Style), DisplayText(fd), fd.Id)))
    case PlaintextCreator =>
      Wrapped(WrapperOf(fd, [], Paragraph(DisplayText(fd), fd.Id)))
    case TextAreaCreator =>
      Wrapped(WrapperOf(fd, [], LabelledTextArea(LabelOf(fd, labelId),
        CommonElement(TextArea, "textarea", fd, fd.Value))))
    case ToggleCreator =>
      Wrapped(WrapperOf(fd, ["selection-wrapper"], ToggleSwitch(LabelOf(fd, labelId),
        CommonElement(Input, "checkbox", fd, ToggleValue(fd)))))
    case SubmitCreator =>
      Wrapped(WrapperOf(fd, [], SubmitButton(OrElse(fd.Label, fd.Name),
        Element(Button, "submit", "", "", "", false, false, false, false))))
    case ConfirmationCreator =>
      Confirmation(fd.Value)
    case FieldsetCreator =>
      Wrapped(WrapperOf(fd, [], FieldSetBox(if fd.Label != "" then Some(fd.Label) else None,
        CommonElement(FieldSet, "fieldset", fd, fd.Value))))
    case RadioCreator =>
      Wrapped(WrapperOf(fd, ["selection-wrapper"], LabelledInput(LabelOf(fd, labelId),
        CommonElement(Input, InputKind(fd.Type), fd, RadioValue(fd)), LabelAfterInput(fd.Type))))
    case InputCreator =>
      Wrapped(WrapperOf(fd, [], LabelledInput(LabelOf(fd, labelId),
        CommonElement(Input, InputKind(fd.Type), fd, InputValue(fd)), LabelAfterInput(fd.Type))))
  }

  /**
   * The per-type defaults: a creator throws exactly as `CreatorThrows` says, and otherwise
   * only "confirmation" yields no wrapper; every labelled control's label points at the
   * control's id and carries the same required flag.
   */
  lemma RenderDefaults(fd: FieldDescriptor, labelId: string, options: seq<SelectOption>)
    ensures forall c :: Render(c, fd, labelId, options).Thrown? <==> CreatorThrows(c, fd)
    ensures forall c :: Render(c, fd, labelId, options).Wrapped? <==> c != ConfirmationCreator && !CreatorThrows(c, fd)
    ensures forall c :: NeedsLabel(c) && !CreatorThrows(c, fd) ==>
              var content := Render(c, fd, labelId, options).wrapper.content;
              content.fieldLabel.forId == content.field.id && content.fieldLabel.required == content.field.required
  {
  }

  /**
   * The control defaults, for creators that do not throw: radios and toggles never have an
   * empty value; a toggle is a checkbox; a heading is `h3` exactly when its style mentions
   * "sub-heading"; an input's label follows it only for the Types "radio" and "checkbox",
   * spelled exactly so.
   */
  lemma ControlDefaults(fd: FieldDescriptor, labelId: string, options: seq<SelectOption>)
    ensures !CreatorThrows(RadioCreator, fd) ==>
              var f := Render(RadioCreator, fd, labelId, options).wrapper.content.field;
              f.value != "" && (InputValue(fd) != "" ==> f.value == InputValue(fd)) &&
              (InputValue(fd) == "" ==> f.value == OrElse(fd.Label, "on"))
    ensures !CreatorThrows(ToggleCreator, fd) ==>
              var f := Render(ToggleCreator, fd, labelId, options).wrapper.content.field;
              f.kind == "checkbox" && f.value != "" &&
              (InputValue(fd) != "" ==> f.value == InputValue(fd)) && (InputValue(fd) == "" ==> f.value == "on")
    ensures !CreatorThrows(HeadingCreator, fd) ==>
              (Render(HeadingCreator, fd, labelId, options).wrapper.content.level == 3 <==> Contains(fd.Style, "sub-heading"))
    ensures forall c :: (c == InputCreator || c == RadioCreator) && !CreatorThrows(c, fd) ==>
              (Render(c, fd, labelId, options).wrapper.content.labelAfter <==> fd.Type == "radio" || fd.Type == "checkbox")
  {
  }

  /** No key of the creator table holds white space. */
  lemma TableKeysArePlain(key: string)
    requires key in CreatorTable
    ensures !HasAsciiSpace(key)
  {
  }

  /**
   * Once dispatched, only the fallback input and a confirmation can throw: every other
   * creator is reached through a table key, so its Type is a plain word that is not "file".
   * The fallback input throws exactly for a Type holding white space or a file input with a
   * Value.
   */
  lemma DispatchedThrows(fd: FieldDescriptor)
    ensures var c := CreatorFor(fd.Type);
            CreatorThrows(c, fd) ==> c == InputCreator || c == ConfirmationCreator
    ensures CreatorFor(fd.Type) == InputCreator ==>
              (CreatorThrows(InputCreator, fd) <==> HasAsciiSpace(fd.Type) || FileValueRejected(fd))
  {
    WrapperTokenValid(fd.Type);
    var key := Lower(fd.Type);
    if key in CreatorTable {
      TableKeysArePlain(key);
      LowerKeepsAsciiSpace(fd.Type);
    }
  }

  /** A Type holding a space falls back to the plain input, whose wrapper class is then refused. */
  lemma SpacedTypeThrows(fd: FieldDescriptor)
    requires fd.Type == "text area"
    ensures CreatorFor(fd.Type) == InputCreator && CreatorThrows(InputCreator, fd)
  {
    assert Lower("text area") == "text area";
    assert IsAsciiSpace((fd.Type + "-wrapper")[4]);
  }

  /** A file input throws when given a Value and not when the Value is empty. */
  lemma FileInputThrows(fd: FieldDescriptor)
    requires fd.Type == "File"
    ensures CreatorFor(fd.Type) == InputCreator
    ensures CreatorThrows(InputCreator, fd) <==> fd.Value != ""
  {
    assert Lower("File") == "file";
    WrapperTokenValid("File");
    assert !HasAsciiSpace("File");
  }

  /** A confirmation whose Value is empty or a path throws; an "https:" address does not. */
  lemma ConfirmationThrows(fd: FieldDescriptor, address: string)
    ensures CreatorThrows(ConfirmationCreator, fd.(Value := "")) && CreatorThrows(ConfirmationCreator, fd.(Value := "/thanks"))
    ensures !CreatorThrows(ConfirmationCreator, fd.(Value := "https:" + address))
  {
    NoUrlSchemeExamples();
    HttpsHasScheme(address);
  }

  /**
   * `createField`: keeps an existing Id and generates one only when it is empty, dispatches on
   * the lower-cased Type, and lets the labelled creators generate the label's id ("-label"
   * suffix) once their wrapper exists, so a creator that throws draws no label id. Remote
   * option lists come from `fetch`; when it fails, the select creator throws.
   */
  method CreateField(gen: FieldIdGenerator, fd: FieldDescriptor, fetch: string -> Option<seq<RemoteOption>>)
    returns (named: FieldDescriptor, created: Created)
    requires gen.prefix == "form-"
    modifies gen
    ensures var slug := gen.Slug(fd.Name, "");
            named == fd.(Id := if fd.Id != "" then fd.Id else IdFor(slug, CountIn(old(gen.ids), slug)))
    ensures var slug := gen.Slug(fd.Name, "");
            var labelSlug := gen.Slug(fd.Name, "-label");
            var afterId := if fd.Id != "" then old(gen.ids) else Bump(old(gen.ids), slug);
            var c := CreatorFor(fd.Type);
            var fetched := FetchedFor(fd, fetch);
            var fails := CreatorThrows(c, fd) || (c == SelectCreator && fetched.None?);
            && gen.ids == (if NeedsLabel(c) && !fails then Bump(afterId, labelSlug) else afterId)
            && created == if fails then Thrown
                          else Render(c, named,
                                      if NeedsLabel(c) then IdFor(labelSlug, CountIn(afterId, labelSlug)) else "",
                                      if c == SelectCreator then OptionList(named, fetched.value) else [])
  {
    var id := fd.Id;
    if id == "" {
      id := gen.Generate(fd.Name, "");
    }
    named := fd.(Id := id);
    var c := CreatorFor(fd.Type);
    var fetched := FetchedFor(fd, fetch);
    if CreatorThrows(c, fd) || (c == SelectCreator && fetched.None?) {
      return named, Thrown;
    }
    var labelId := "";
    var options: seq<SelectOption> := [];
    if c == SelectCreator {
      options := BuildOptions(named, fetched.value);
    }
    if NeedsLabel(c) {
      labelId := gen.Generate(fd.Name, "-label");
    }
    created := Render(c, named, labelId, options);
  }
}
