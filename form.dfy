/**
 * The form block once the form is built: the payload it serialises, the two validity checks
 * (the required-field check that drives the submit button and the message-producing
 * validation), the submit button's state and the submit gate. The form is its list of
 * controls in document order, `form.elements`.
 */
module FormBlock {
  import opened Results
  import opened JsText
  import opened FormFields

  // ---------------------------------------------------------------- payload

  predicate IsToggleKind(kind: string) {
    kind == "radio" || kind == "checkbox"
  }

  /** A control that takes part at all: it has a name, is not a submit control and is enabled. */
  predicate Contributes(e: Element) {
    e.name != "" && e.kind != "submit" && !e.disabled
  }

  /** A control that writes its name into the payload: radios and checkboxes only when checked. */
  predicate Writes(e: Element) {
    Contributes(e) && (IsToggleKind(e.kind) ==> e.checked)
  }

  /**
   * One control's effect on the payload: a checked checkbox appends ",value" to a non-empty
   * earlier entry of its name; every other writer sets the entry.
   */
  function PayloadStep(payload: map<string, string>, e: Element): map<string, string> {
    if !Writes(e) then payload
    else if e.kind == "checkbox" && e.name in payload && payload[e.name] != "" then
      payload[e.name := payload[e.name] + "," + e.value]
    else payload[e.name := e.value]
  }

  /** The payload of a list of controls: each control's step, in document order. */
  function Payload(elems: seq<Element>): map<string, string> {
    if elems == [] then map[] else PayloadStep(Payload(elems[..|elems| - 1]), elems[|elems| - 1])
  }

  /** `generatePayload`. */
  method GeneratePayload(elems: seq<Element>) returns (payload: map<string, string>)
    ensures payload == Payload(elems)
  {
    payload := map[];
    var i := 0;
    while i < |elems|
      invariant 0 <= i <= |elems|
      invariant payload == Payload(elems[..i])
    {
      var field := elems[i];
      if field.name != "" && field.kind != "submit" && !field.disabled {
        if field.kind == "radio" {
          if field.checked {
            payload := payload[field.name := field.value];
          }
        } else if field.kind == "checkbox" {
          if field.checked {
            var joined := if field.name in payload && payload[field.name] != ""
                          then payload[field.name] + "," + field.value
                          else field.value;
            payload := payload[field.name := joined];
          }
        } else {
          payload := payload[field.name := field.value];
        }
      }
      assert elems[..i + 1][..i] == elems[..i];
      i := i + 1;
    }
    assert elems[..i] == elems;
  }

  /** The payload's keys are exactly the names of the controls that write. */
  lemma {:induction false} PayloadKeys(elems: seq<Element>, name: string)
    ensures name in Payload(elems) <==>
            exists i :: 0 <= i < |elems| && Writes(elems[i]) && elems[i].name == name
  {
    if elems != [] {
      var init := elems[..|elems| - 1];
      PayloadKeys(init, name);
      if exists i :: 0 <= i < |init| && Writes(init[i]) && init[i].name == name {
        var i :| 0 <= i < |init| && Writes(init[i]) && init[i].name == name;
        assert elems[i] == init[i];
      }
      if exists i :: 0 <= i < |elems| && Writes(elems[i]) && elems[i].name == name {
        var i :| 0 <= i < |elems| && Writes(elems[i]) && elems[i].name == name;
        if i < |init| {
          assert init[i] == elems[i];
        }
      }
    }
  }

  /**
   * A radio or a field of any other non-checkbox kind that is the last control writing its
   * name decides that name's entry: later controls of other names, unchecked toggles and
   * controls that do not contribute leave it alone.
   */
  lemma {:induction false} PayloadLastWriterWins(elems: seq<Element>, i: nat)
    requires i < |elems| && Writes(elems[i]) && elems[i].kind != "checkbox"
    requires forall j :: i < j < |elems| ==> !(Writes(elems[j]) && elems[j].name == elems[i].name)
    ensures elems[i].name in Payload(elems) && Payload(elems)[elems[i].name] == elems[i].value
  {
    var init := elems[..|elems| - 1];
    if i < |elems| - 1 {
      forall j | i < j < |init| ensures !(Writes(init[j]) && init[j].name == init[i].name) {
        assert init[j] == elems[j];
      }
      PayloadLastWriterWins(init, i);
    }
  }

  /** The values of the controls that write `name`, in document order. */
  function WrittenValues(elems: seq<Element>, name: string): (r: seq<string>)
    ensures |r| <= |elems|
  {
    if elems == [] then []
    else
      var last := elems[|elems| - 1];
      WrittenValues(elems[..|elems| - 1], name) + (if Writes(last) && last.name == name then [last.value] else [])
  }

  /**
   * When every control writing `name` is a checked checkbox with a non-empty value, the
   * entry is the comma-join of their values in document order.
   */
  lemma {:induction false} PayloadCheckboxJoin(elems: seq<Element>, name: string)
    requires forall j :: 0 <= j < |elems| && Writes(elems[j]) && elems[j].name == name ==>
               elems[j].kind == "checkbox" && elems[j].value != ""
    requires WrittenValues(elems, name) != []
    ensures name in Payload(elems) && Payload(elems)[name] == Join(WrittenValues(elems, name), ',')
    ensures Payload(elems)[name] != ""
  {
    var init := elems[..|elems| - 1];
    var last := elems[|elems| - 1];
    forall j | 0 <= j < |init| && Writes(init[j]) && init[j].name == name
      ensures init[j].kind == "checkbox" && init[j].value != ""
    {
      assert init[j] == elems[j];
    }
    var before := WrittenValues(init, name);
    if before == [] {
      assert Writes(last) && last.name == name;
      WrittenValuesEmpty(init, name);
      PayloadKeys(init, name);
    } else {
      PayloadCheckboxJoin(init, name);
      if Writes(last) && last.name == name {
        assert last.kind == "checkbox";
        assert WrittenValues(elems, name) == before + [last.value];
        JoinSnoc(before, last.value, ',');
        assert Payload(elems)[name] == Payload(init)[name] + "," + last.value;
      } else {
        assert WrittenValues(elems, name) == before;
      }
    }
  }

  lemma {:induction false} WrittenValuesEmpty(elems: seq<Element>, name: string)
    requires WrittenValues(elems, name) == []
    ensures forall i :: 0 <= i < |elems| ==> !(Writes(elems[i]) && elems[i].name == name)
  {
    if elems != [] {
      var init := elems[..|elems| - 1];
      WrittenValuesEmpty(init, name);
      forall i | 0 <= i < |elems| ensures !(Writes(elems[i]) && elems[i].name == name) {
        if i < |init| {
          assert elems[i] == init[i];
        }
      }
    }
  }

  /** A control that does not write can be removed from anywhere without changing the payload. */
  lemma {:induction false} PayloadIgnoresNonWriter(a: seq<Element>, e: Element, b: seq<Element>)
    requires !Writes(e)
    ensures Payload(a + [e] + b) == Payload(a + b)
  {
    if b == [] {
      assert (a + [e] + b)[..|a + [e] + b| - 1] == a;
      assert a + b == a;
    } else {
      var b' := b[..|b| - 1];
      PayloadIgnoresNonWriter(a, e, b');
      assert (a + [e] + b)[..|a + [e] + b| - 1] == a + [e] + b';
      assert (a + b)[..|a + b| - 1] == a + b';
    }
  }

  // ---------------------------------------------------------------- the email pattern

  /** The character class `[^\s@]` over a whole run. */
  predicate PlainRun(s: string) {
    forall k :: 0 <= k < |s| ==> !IsSpace(s[k]) && s[k] != '@'
  }

  /** `^[^\s@]+@[^\s@]+\.[^\s@]+$`: a run, "@", a run, ".", a run, each run non-empty. */
  ghost predicate MatchesEmailPattern(s: string) {
    exists i, j :: 0 < i && i + 1 < j && j + 1 < |s| && s[i] == '@' && s[j] == '.'
                   && PlainRun(s[..i]) && PlainRun(s[i + 1..j]) && PlainRun(s[j + 1..])
  }

  /** A "." strictly inside the string: neither its first nor its last character. */
  predicate InnerDot(d: string) {
    |d| >= 3 && '.' in d[1..|d| - 1]
  }

  /**
   * The pattern's test read as a scan: no white space, exactly one "@" with something before
   * it, and an inner "." after it.
   */
  predicate IsEmail(s: string) {
    var parts := Split(s, '@');
    NoSpace(s) && |parts| == 2 && parts[0] != "" && InnerDot(parts[1])
  }

  /** The scan accepts exactly the strings the pattern matches. */
  lemma EmailPatternIff(s: string)
    ensures MatchesEmailPattern(s) <==> IsEmail(s)
  {
    if MatchesEmailPattern(s) {
      var i, j :| 0 < i && i + 1 < j && j + 1 < |s| && s[i] == '@' && s[j] == '.'
                  && PlainRun(s[..i]) && PlainRun(s[i + 1..j]) && PlainRun(s[j + 1..]);
      EmailFromPattern(s, i, j);
    }
    if IsEmail(s) {
      PatternFromEmail(s);
    }
  }

  lemma EmailFromPattern(s: string, i: nat, j: nat)
    requires 0 < i && i + 1 < j && j + 1 < |s| && s[i] == '@' && s[j] == '.'
    requires PlainRun(s[..i]) && PlainRun(s[i + 1..j]) && PlainRun(s[j + 1..])
    ensures IsEmail(s)
  {
    var a, d := s[..i], s[i + 1..];
    forall k | 0 <= k < |d| ensures !IsSpace(d[k]) && d[k] != '@' {
      if k < j - i - 1 {
        assert d[k] == s[i + 1..j][k];
      } else if k > j - i - 1 {
        assert d[k] == s[j + 1..][k - (j - i)];
      }
    }
    assert '@' !in a by {
      forall k | 0 <= k < |a| ensures a[k] != '@' { }
    }
    assert s == Join([a, d], '@');
    SplitJoin([a, d], '@');
    forall k | 0 <= k < |s| ensures !IsSpace(s[k]) {
      if k < i {
        assert s[k] == a[k];
      } else if k > i {
        assert s[k] == d[k - i - 1];
      }
    }
    assert d[1..|d| - 1][j - i - 2] == '.';
  }

  lemma PatternFromEmail(s: string)
    requires IsEmail(s)
    ensures MatchesEmailPattern(s)
  {
    var parts := Split(s, '@');
    var a, d := parts[0], parts[1];
    JoinSplit(s, '@');
    assert s == a + ['@'] + d;
    var k' :| 0 <= k' < |d| - 2 && d[1..|d| - 1][k'] == '.';
    var i, j := |a|, |a| + 2 + k';
    assert s[i] == '@' && s[j] == '.';
    assert s[..i] == a;
    assert s[i + 1..j] == d[..k' + 1];
    assert s[j + 1..] == d[k' + 2..];
    forall k | 0 <= k < |s| ensures !IsSpace(s[k]) {
      assert s[k] in s;
    }
  }

  // ---------------------------------------------------------------- checkAllRequiredFields

  /** The controls whose value the required check reads: text, email and password inputs, textareas and selects. */
  predicate TextLike(e: Element) {
    (e.tag == Input && e.kind in {"text", "email", "password"}) || e.tag == TextArea || e.tag == Select
  }

  predicate EmailChecked(e: Element) {
    e.kind == "email" || Lower(e.name) == "email"
  }

  predicate PasswordChecked(e: Element) {
    e.kind == "password" || Lower(e.name) == "password"
  }

  /**
   * A required text-like control passes when its trimmed value is non-empty, is an email
   * address when the control is typed or named email, and has at least eight characters
   * when it is typed or named password.
   */
  predicate ValueAcceptable(e: Element) {
    var v := Trim(e.value);
    v != "" && (EmailChecked(e) ==> IsEmail(v)) && (PasswordChecked(e) ==> |v| >= 8)
  }

  /** Some `input` of the form with this name is checked (disabled ones included). */
  predicate GroupHasChecked(elems: seq<Element>, name: string) {
    exists j :: 0 <= j < |elems| && elems[j].tag == Input && elems[j].name == name && elems[j].checked
  }

  /** The required check for one control; submit controls and disabled controls always pass. */
  predicate FieldOk(elems: seq<Element>, e: Element) {
    || e.kind == "submit"
    || e.disabled
    || (&& (TextLike(e) && e.required ==> ValueAcceptable(e))
        && (e.kind == "radio" && e.required ==> GroupHasChecked(elems, e.name))
        && (e.kind == "checkbox" && e.required ==> e.checked))
  }

  predicate AllRequiredSatisfied(elems: seq<Element>) {
    forall i :: 0 <= i < |elems| ==> FieldOk(elems, elems[i])
  }

  /**
   * `checkAllRequiredFields`: one pass over the controls; a required radio group is looked
   * up once, at its first enabled required radio, and its later radios are skipped.
   */
  method CheckAllRequiredFields(elems: seq<Element>) returns (allValid: bool)
    ensures allValid == AllRequiredSatisfied(elems)
  {
    allValid := true;
    var processedRadioGroups: set<string> := {};
    var i := 0;
    while i < |elems|
      invariant 0 <= i <= |elems|
      invariant allValid == (forall j :: 0 <= j < i ==> FieldOk(elems, elems[j]))
      invariant forall n :: n in processedRadioGroups ==>
                  exists j :: 0 <= j < i && elems[j].kind == "radio" && elems[j].required
                              && !elems[j].disabled && elems[j].name == n
    {
      var field := elems[i];
      if field.kind != "submit" && !field.disabled {
        var failed := false;
        if TextLike(field) && field.required {
          var fieldValue := Trim(field.value);
          if fieldValue == "" {
            failed := true;
          } else if EmailChecked(field) && !IsEmail(fieldValue) {
            failed := true;
          } else if PasswordChecked(field) && |fieldValue| < 8 {
            failed := true;
          }
        }
        if !failed && field.kind == "radio" && field.required && field.name !in processedRadioGroups {
          processedRadioGroups := processedRadioGroups + {field.name};
          if !GroupHasChecked(elems, field.name) {
            failed := true;
          }
        }
        if !failed && field.kind == "checkbox" && field.required && !field.checked {
          failed := true;
        }
        if failed {
          allValid := false;
        }
      }
      i := i + 1;
    }
  }

  /**
   * Submit controls and disabled controls never make the check fail: inserting one anywhere
   * keeps a passing form passing (a checked one can even satisfy a radio group).
   */
  lemma SkippedControlsNeverFail(a: seq<Element>, e: Element, b: seq<Element>)
    requires e.kind == "submit" || e.disabled
    requires AllRequiredSatisfied(a + b)
    ensures AllRequiredSatisfied(a + [e] + b)
  {
    var before, after := a + b, a + [e] + b;
    forall i | 0 <= i < |after| ensures FieldOk(after, after[i]) {
      if i != |a| {
        var k := if i < |a| then i else i - 1;
        assert after[i] == before[k];
        if after[i].kind == "radio" && after[i].required && !after[i].disabled && after[i].kind != "submit" {
          var j :| 0 <= j < |before| && before[j].tag == Input && before[j].name == after[i].name && before[j].checked;
          var j' := if j < |a| then j else j + 1;
          assert after[j'] == before[j];
        }
      }
    }
  }

  // ---------------------------------------------------------------- validateFormFields

  datatype Message = NoMessage | Required | InvalidEmail | ShortPassword

  /**
   * The message `validateFormFields` attaches to one control. Messages are raised only when
   * `validateAll` is set or the control has been touched; the email and password rules go by
   * the control's name alone.
   */
  function MessageFor(e: Element, validateAll: bool): Message {
    var v := Trim(e.value);
    var shown := validateAll || e.touched;
    if (e.tag == Input || e.tag == TextArea) && e.required && v == "" then
      (if shown then Required else NoMessage)
    else if Lower(e.name) == "email" && v != "" && shown then
      (if IsEmail(v) then NoMessage else InvalidEmail)
    else if Lower(e.name) == "password" && v != "" && shown then
      (if |v| < 8 then ShortPassword else NoMessage)
    else NoMessage
  }

  function Messages(elems: seq<Element>, validateAll: bool): seq<Message> {
    seq(|elems|, i requires 0 <= i < |elems| => MessageFor(elems[i], validateAll))
  }

  /** `validateFormFields`' result: no control received a message. */
  predicate AllValid(elems: seq<Element>, validateAll: bool) {
    forall i :: 0 <= i < |elems| ==> MessageFor(elems[i], validateAll) == NoMessage
  }

  /**
   * The pass of `validateFormFields` over the controls: each control's old message is
   * replaced by the one computed now, so the messages depend on the controls alone.
   */
  method ValidateFields(elems: seq<Element>, validateAll: bool) returns (isValid: bool, messages: seq<Message>)
    ensures messages == Messages(elems, validateAll)
    ensures isValid <==> AllValid(elems, validateAll)
  {
    isValid := true;
    messages := [];
    var i := 0;
    while i < |elems|
      invariant 0 <= i <= |elems|
      invariant |messages| == i
      invariant forall j :: 0 <= j < i ==> messages[j] == MessageFor(elems[j], validateAll)
      invariant isValid <==> forall j :: 0 <= j < i ==> MessageFor(elems[j], validateAll) == NoMessage
    {
      var message := MessageFor(elems[i], validateAll);
      if message != NoMessage {
        isValid := false;
      }
      messages := messages + [message];
      i := i + 1;
    }
  }

  /**
   * What each message means. A message needs `validateAll` or a touched control. An input or
   * textarea that is required and blank gets "required"; otherwise a control named email
   * with a non-empty value gets "invalid email" exactly when the pattern rejects the value,
   * and one named password exactly when the trimmed value is shorter than eight characters.
   */
  lemma MessageMeaning(e: Element, validateAll: bool)
    ensures MessageFor(e, validateAll) != NoMessage ==> validateAll || e.touched
    ensures var v := Trim(e.value);
            var blankRequired := (e.tag == Input || e.tag == TextArea) && e.required && v == "";
            && (MessageFor(e, validateAll) == Required <==> blankRequired && (validateAll || e.touched))
            && (MessageFor(e, validateAll) == InvalidEmail <==>
                  !blankRequired && (validateAll || e.touched) && Lower(e.name) == "email"
                  && v != "" && !MatchesEmailPattern(v))
            && (MessageFor(e, validateAll) == ShortPassword <==>
                  !blankRequired && (validateAll || e.touched) && Lower(e.name) == "password"
                  && Lower(e.name) != "email" && 0 < |v| < 8)
  {
    EmailPatternIff(Trim(e.value));
  }

  /** A touched control gets the same message with or without `validateAll`. */
  lemma TouchedIgnoresValidateAll(e: Element)
    requires e.touched
    ensures MessageFor(e, false) == MessageFor(e, true)
  {
  }

  /** A form that passes the full validation passes the touched-only one. */
  lemma {:induction false} FullValidationIsStrongest(elems: seq<Element>)
    requires AllValid(elems, true)
    ensures AllValid(elems, false)
  {
    forall i | 0 <= i < |elems| ensures MessageFor(elems[i], false) == NoMessage {
      MessageMeaning(elems[i], false);
      if elems[i].touched {
        TouchedIgnoresValidateAll(elems[i]);
      }
    }
  }

  /**
   * Neither check implies the other, which is why the submit gate runs both: a required
   * input typed email but named otherwise fails only the required check, and an optional
   * input named email fails only the validation.
   */
  lemma ChecksAreIndependent()
    ensures var typedEmail := Element(Input, "email", "contact", "contact", "x", true, false, false, false);
            !AllRequiredSatisfied([typedEmail]) && AllValid([typedEmail], true)
    ensures var namedEmail := Element(Input, "text", "email", "email", "x", false, false, false, false);
            AllRequiredSatisfied([namedEmail]) && !AllValid([namedEmail], true)
  {
    var typedEmail := Element(Input, "email", "contact", "contact", "x", true, false, false, false);
    var namedEmail := Element(Input, "text", "email", "email", "x", false, false, false, false);
    assert Trim("x") == "x";
    SplitNoSeparator("x", '@');
    assert Lower("contact") != "email" by { assert Lower("contact")[0] == 'c'; }
    assert Lower("contact") != "password" by { assert Lower("contact")[0] == 'c'; }
    assert Lower("email") == "email";
    assert !FieldOk([typedEmail], typedEmail);
    assert MessageFor(typedEmail, true) == NoMessage;
    assert FieldOk([namedEmail], namedEmail);
    assert MessageFor(namedEmail, true) == InvalidEmail;
    assert [typedEmail][0] == typedEmail && [namedEmail][0] == namedEmail;
  }

  // ---------------------------------------------------------------- the submit button

  /** `button[type="submit"], input[type="submit"]`. */
  predicate IsSubmitControl(e: Element) {
    (e.tag == Button || e.tag == Input) && e.kind == "submit"
  }

  /** `querySelector` for the submit control: the first one in document order. */
  function FirstSubmit(elems: seq<Element>): (r: Option<nat>)
    ensures r.Some? ==> r.value < |elems| && IsSubmitControl(elems[r.value])
                        && forall j :: 0 <= j < r.value ==> !IsSubmitControl(elems[j])
    ensures r.None? ==> forall j :: 0 <= j < |elems| ==> !IsSubmitControl(elems[j])
  {
    if elems == [] then None
    else if IsSubmitControl(elems[0]) then Some(0)
    else match FirstSubmit(elems[1..])
      case None => None
      case Some(k) => Some(k + 1)
  }

  /** The controls after setting the submit control's `disabled`; unchanged without one. */
  function WithSubmitDisabled(elems: seq<Element>, disabled: bool): seq<Element> {
    match FirstSubmit(elems)
    case None => elems
    case Some(k) => elems[k := elems[k].(disabled := disabled)]
  }

  /**
   * The submit control's own state is invisible to everything that reads the form: the same
   * control stays first, and the required check, the messages and the payload are unchanged.
   */
  lemma SubmitStateInvisible(elems: seq<Element>, disabled: bool)
    ensures var after := WithSubmitDisabled(elems, disabled);
            && FirstSubmit(after) == FirstSubmit(elems)
            && AllRequiredSatisfied(after) == AllRequiredSatisfied(elems)
            && (forall va :: Messages(after, va) == Messages(elems, va))
            && Payload(after) == Payload(elems)
  {
    match FirstSubmit(elems)
    case None =>
    case Some(k) =>
      var after := elems[k := elems[k].(disabled := disabled)];
      FirstSubmitOfSameKinds(elems, after);
      RequiredCheckIgnoresSubmit(elems, k, disabled);
      MessagesIgnoreDisabled(elems, k, disabled);
      PayloadIgnoresSubmit(elems, k, disabled);
  }

  lemma PayloadIgnoresSubmit(elems: seq<Element>, k: nat, disabled: bool)
    requires k < |elems| && elems[k].kind == "submit"
    ensures Payload(elems[k := elems[k].(disabled := disabled)]) == Payload(elems)
  {
    var after := elems[k := elems[k].(disabled := disabled)];
    assert elems == elems[..k] + [elems[k]] + elems[k + 1..];
    assert after == elems[..k] + [after[k]] + elems[k + 1..];
    PayloadIgnoresNonWriter(elems[..k], elems[k], elems[k + 1..]);
    PayloadIgnoresNonWriter(elems[..k], after[k], elems[k + 1..]);
  }

  lemma MessagesIgnoreDisabled(elems: seq<Element>, k: nat, disabled: bool)
    requires k < |elems|
    ensures forall va :: Messages(elems[k := elems[k].(disabled := disabled)], va) == Messages(elems, va)
  {
    var after := elems[k := elems[k].(disabled := disabled)];
    forall va ensures Messages(after, va) == Messages(elems, va) {
      assert MessageFor(after[k], va) == MessageFor(elems[k], va);
    }
  }

  lemma RequiredCheckIgnoresSubmit(elems: seq<Element>, k: nat, disabled: bool)
    requires k < |elems| && elems[k].kind == "submit"
    ensures AllRequiredSatisfied(elems[k := elems[k].(disabled := disabled)]) == AllRequiredSatisfied(elems)
  {
    var after := elems[k := elems[k].(disabled := disabled)];
    forall name ensures GroupHasChecked(after, name) == GroupHasChecked(elems, name) {
      if GroupHasChecked(elems, name) {
        var j :| 0 <= j < |elems| && elems[j].tag == Input && elems[j].name == name && elems[j].checked;
        assert after[j].tag == Input && after[j].name == name && after[j].checked;
      }
      if GroupHasChecked(after, name) {
        var j :| 0 <= j < |after| && after[j].tag == Input && after[j].name == name && after[j].checked;
        assert elems[j].tag == Input && elems[j].name == name && elems[j].checked;
      }
    }
    assert forall i :: 0 <= i < |after| ==> FieldOk(after, after[i]) == FieldOk(elems, elems[i]);
  }

  lemma {:induction false} FirstSubmitOfSameKinds(a: seq<Element>, b: seq<Element>)
    requires |a| == |b|
    requires forall i :: 0 <= i < |a| ==> IsSubmitControl(a[i]) == IsSubmitControl(b[i])
    ensures FirstSubmit(a) == FirstSubmit(b)
  {
    if a != [] {
      FirstSubmitOfSameKinds(a[1..], b[1..]);
    }
  }

  // ---------------------------------------------------------------- the form

  class Form {
    /** `form.elements`, in document order. */
    var elements: seq<Element>
    /** The `.field-error` message shown for each control, `NoMessage` where there is none. */
    var messages: seq<Message>
    /** Whether `.form-error-message` is displayed. */
    var bannerShown: bool

    /** The submit control, when there is one, is disabled exactly when the required check fails. */
    predicate SubmitReflectsRequired()
      reads this
    {
      match FirstSubmit(elements)
      case None => true
      case Some(k) => elements[k].disabled == !AllRequiredSatisfied(elements)
    }

    /** The form as `createForm` leaves it once its deferred step ran: the submit control disabled, nothing shown. */
    constructor (controls: seq<Element>)
      ensures elements == WithSubmitDisabled(controls, true)
      ensures |messages| == |controls| && (forall i :: 0 <= i < |messages| ==> messages[i] == NoMessage)
      ensures !bannerShown
    {
      elements := WithSubmitDisabled(controls, true);
      messages := seq(|controls|, i => NoMessage);
      bannerShown := false;
    }

    /** `updateSubmitState`: the submit control's `disabled` set from the required check. */
    method UpdateSubmitState()
      modifies this
      ensures elements == WithSubmitDisabled(old(elements), !AllRequiredSatisfied(old(elements)))
      ensures messages == old(messages) && bannerShown == old(bannerShown)
      ensures SubmitReflectsRequired()
    {
      var submit := FirstSubmit(elements);
      if submit.Some? {
        var allFieldsValid := CheckAllRequiredFields(elements);
        SubmitStateInvisible(elements, !allFieldsValid);
        elements := elements[submit.value := elements[submit.value].(disabled := !allFieldsValid)];
      }
    }

    /**
     * `validateFormFields(form, validateAll)`: every control's message recomputed; the banner
     * shows exactly when some control has a message and `validateAll` is set.
     */
    method Validate(validateAll: bool) returns (isValid: bool)
      modifies this
      ensures elements == old(elements)
      ensures isValid <==> AllValid(elements, validateAll)
      ensures messages == Messages(elements, validateAll)
      ensures bannerShown == (!isValid && validateAll)
    {
      var msgs;
      isValid, msgs := ValidateFields(elements, validateAll);
      messages := msgs;
      bannerShown := !isValid && validateAll;
    }

    /**
     * The `blur`/`input` listeners of an input or textarea (and the `change` listener of a
     * radio or checkbox, which are inputs): the control is marked touched, the form is
     * validated without `validateAll` and the submit control refreshed.
     */
    method Touch(i: nat)
      requires i < |elements| && (elements[i].tag == Input || elements[i].tag == TextArea)
      modifies this
      ensures var touched := old(elements)[i := old(elements)[i].(touched := true)];
              && elements == WithSubmitDisabled(touched, !AllRequiredSatisfied(touched))
              && messages == Messages(touched, false)
              && !bannerShown
      ensures SubmitReflectsRequired()
    {
      elements := elements[i := elements[i].(touched := true)];
      var _ := Validate(false);
      UpdateSubmitState();
    }

    /**
     * `handleSubmit`: refused unless the required check and the full validation both pass;
     * with no submit control the attempt fails inside the `try` and is refused as well.
     * Otherwise the payload is built and the submit control ends enabled again.
     */
    method HandleSubmit() returns (ok: bool, payload: Option<map<string, string>>)
      modifies this
      ensures ok <==> AllRequiredSatisfied(old(elements)) && AllValid(old(elements), true)
                      && FirstSubmit(old(elements)).Some?
      ensures payload == if ok then Some(Payload(old(elements))) else None
      ensures elements == if ok then WithSubmitDisabled(old(elements), false) else old(elements)
      ensures !AllRequiredSatisfied(old(elements)) ==>
                messages == old(messages) && bannerShown == old(bannerShown)
      ensures AllRequiredSatisfied(old(elements)) ==>
                messages == Messages(old(elements), true) && bannerShown == !AllValid(old(elements), true)
    {
      var required := CheckAllRequiredFields(elements);
      if !required {
        return false, None;
      }
      var valid := Validate(true);
      if !valid {
        return false, None;
      }
      var submit := FirstSubmit(elements);
      if submit.None? {
        UpdateSubmitState();
        return false, None;
      }
      SubmitStateInvisible(elements, true);
      elements := elements[submit.value := elements[submit.value].(disabled := true)];
      var built := GeneratePayload(elements);
      UpdateSubmitState();
      return true, Some(built);
    }
  }
}
