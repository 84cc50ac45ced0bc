/**
 * The checklist block's field factory and its progress display. Items are checkboxes;
 * progress is the share of checked boxes, shown as a rounded percentage, a count text and
 * one of three status classes, and completing every box opens the completion modal.
 */
module Checklist {
  import opened Results
  import opened JsText
  import opened Descriptor
  import opened FieldIds
  import opened HtmlRules

  // ---------------------------------------------------------------- dispatch

  datatype ChecklistCreator = ItemCreator | HeadingCreator | PlaintextCreator

  /** `CHECKLIST_FIELD_CREATOR_FUNCTIONS`, keyed by the lower-cased Type ("checkbox" is an alias). */
  const ChecklistTable: map<string, ChecklistCreator> := map[
    "checklist-item" := ItemCreator,
    "checkbox" := ItemCreator,
    "heading" := HeadingCreator,
    "plaintext" := PlaintextCreator]

  /** The creator for a Type: looked up lower-cased, falling back to a checklist item. */
  function ChecklistCreatorFor(fieldType: string): ChecklistCreator {
    var key := Lower(fieldType);
    if key in ChecklistTable then ChecklistTable[key] else ItemCreator
  }

  /**
   * Every Type makes a checklist item except "heading" and "plaintext" in any mix of cases;
   * "checklist-item", "checkbox" and unknown Types all land on the item.
   */
  lemma ChecklistDispatch(fieldType: string)
    ensures ChecklistCreatorFor(fieldType) == HeadingCreator <==> Lower(fieldType) == "heading"
    ensures ChecklistCreatorFor(fieldType) == PlaintextCreator <==> Lower(fieldType) == "plaintext"
    ensures ChecklistCreatorFor(fieldType) == ItemCreator <==>
              Lower(fieldType) != "heading" && Lower(fieldType) != "plaintext"
  {
  }

  /** Dispatch as the table lookup is written, finding inherited properties too. */
  function ChecklistDispatchAsWritten(fieldType: string): DispatchOutcome<ChecklistCreator> {
    TableDispatchAsWritten(ChecklistTable, ItemCreator, fieldType)
  }

  /**
   * The lookup as written departs from the fallback for two Types: "constructor" is dropped
   * without an item and "__proto__" makes the whole checklist fail to build.
   */
  lemma ChecklistDispatchAsWrittenMisroutes()
    ensures ChecklistCreatorFor("constructor") == ItemCreator && ChecklistDispatchAsWritten("constructor") == NoWrapper
    ensures ChecklistCreatorFor("__proto__") == ItemCreator && ChecklistDispatchAsWritten("__proto__") == Throws
  {
    assert Lower("constructor") == "constructor";
    assert Lower("__proto__") == "__proto__";
  }

  /** For every other Type the lookup as written and the own-key lookup agree. */
  lemma ChecklistDispatchAgreesElsewhere(fieldType: string)
    requires Lower(fieldType) != "constructor" && Lower(fieldType) != "__proto__"
    ensures ChecklistDispatchAsWritten(fieldType) == Runs(ChecklistCreatorFor(fieldType))
  {
  }

  // ---------------------------------------------------------------- items

  /** The checkbox of an item: id, name, value and its `data-priority` and `data-description`. */
  datatype ItemBox = ItemBox(id: string, name: string, value: string, priority: string, description: string)

  /** `setCommonAttributes` for a checklist checkbox. */
  function CommonAttributes(fd: FieldDescriptor): ItemBox {
    ItemBox(fd.Id, fd.Name, OrElse(fd.Value, "checked"), OrElse(fd.Priority, "normal"), fd.Description)
  }

  /**
   * The defaults: an empty Value reads "checked", an empty Priority "normal", an empty
   * Description ""; a non-empty column is kept as it is. Neither the value nor the priority
   * is ever empty.
   */
  lemma AttributeDefaults(fd: FieldDescriptor)
    ensures var box := CommonAttributes(fd);
            && box.value != "" && box.priority != ""
            && (box.value == "checked" <==> fd.Value == "" || fd.Value == "checked")
            && (box.priority == "normal" <==> fd.Priority == "" || fd.Priority == "normal")
            && (fd.Value != "" ==> box.value == fd.Value)
            && (fd.Priority != "" ==> box.priority == fd.Priority)
            && box.description == fd.Description
  {
  }

  /** The wrapper class for the raw Priority column: only "high" and "medium" have one. */
  function PriorityClass(priority: string): Option<string> {
    if priority == "high" then Some("priority-high")
    else if priority == "medium" then Some("priority-medium")
    else None
  }

  lemma PriorityClasses(priority: string)
    ensures PriorityClass(priority) == Some("priority-high") <==> priority == "high"
    ensures PriorityClass(priority) == Some("priority-medium") <==> priority == "medium"
    ensures PriorityClass(priority) == None <==> priority != "high" && priority != "medium"
  {
  }

  datatype ChecklistContent =
    | Item(box: ItemBox, title: string, description: Option<string>)
    | ChecklistHeading(level: nat, text: string, elementId: string)
    | ChecklistText(text: string, elementId: string)

  /** The wrapper `div`: the Style as class name, the classes added to it, its `data-fieldset`. */
  datatype ChecklistWrapper = ChecklistWrapper(style: string, classes: seq<string>, fieldset: string, content: ChecklistContent)

  function WrapperClasses(fd: FieldDescriptor, extra: seq<string>): seq<string> {
    ["checklist-field-wrapper", fd.Type + "-wrapper"] + extra
  }

  /** What each creator builds for a descriptor whose Id is set. */
  function RenderChecklist(c: ChecklistCreator, fd: FieldDescriptor): ChecklistWrapper {
    match c
    case ItemCreator =>
      var priority := match PriorityClass(fd.Priority) case Some(p) => [p] case None => [];
      ChecklistWrapper(fd.Style, WrapperClasses(fd, ["checklist-item"] + priority), fd.Fieldset,
        Item(CommonAttributes(fd), OrElse(fd.Label, fd.Name),
             if fd.Description != "" then Some(fd.Description) else None))
    case HeadingCreator =>
      ChecklistWrapper(fd.Style, WrapperClasses(fd, ["checklist-heading-wrapper"]), fd.Fieldset,
        ChecklistHeading(HeadingLevel(fd.Style), DisplayText(fd), fd.Id))
    case PlaintextCreator =>
      ChecklistWrapper(fd.Style, WrapperClasses(fd, ["checklist-text-wrapper"]), fd.Fieldset,
        ChecklistText(DisplayText(fd), fd.Id))
  }

  /**
   * The classes an item's creator adds include a priority class exactly for Priority "high"
   * or "medium"; its title is the Label or else the Name; its description paragraph is
   * present exactly when the Description is non-empty. A Style such as "priority-high" is
   * the wrapper's class name as well, whatever the Priority; `classes` holds only what the
   * creator adds.
   */
  lemma ItemRendering(fd: FieldDescriptor)
    ensures var w := RenderChecklist(ItemCreator, fd);
            && (|w.classes| == 4 <==> fd.Priority == "high" || fd.Priority == "medium")
            && ("priority-high" in w.classes <==> fd.Priority == "high")
            && ("priority-medium" in w.classes <==> fd.Priority == "medium")
            && w.content.title == OrElse(fd.Label, fd.Name)
            && (w.content.description.Some? <==> fd.Description != "")
  {
    var w := RenderChecklist(ItemCreator, fd);
    NotPriorityClass(fd.Type + "-wrapper");
    if fd.Priority != "high" {
      assert "priority-high" != "priority-medium";
    }
  }

  lemma NotPriorityClass(cls: string)
    requires |cls| >= 8 && cls[|cls| - 8..] == "-wrapper"
    ensures cls != "priority-high" && cls != "priority-medium"
  {
    assert "priority-high"[|"priority-high"| - 8..] != "-wrapper";
    assert "priority-medium"[|"priority-medium"| - 8..] != "-wrapper";
  }

  /**
   * Every creator builds its wrapper with the class `${Type}-wrapper`, which `classList.add`
   * refuses when the Type holds white space. Only the fallback item can meet such a Type:
   * the heading and plain-text creators are reached through plain-word keys.
   */
  lemma ChecklistThrowsOnlyForItems(fieldType: string)
    ensures !ValidToken(fieldType + "-wrapper") <==> HasAsciiSpace(fieldType)
    ensures HasAsciiSpace(fieldType) ==> ChecklistCreatorFor(fieldType) == ItemCreator
  {
    WrapperTokenValid(fieldType);
    var key := Lower(fieldType);
    LowerKeepsAsciiSpace(fieldType);
    if key in ChecklistTable {
      ChecklistKeysArePlain(key);
    }
  }

  /** No key of the checklist's creator table holds white space. */
  lemma ChecklistKeysArePlain(key: string)
    requires key in ChecklistTable
    ensures !HasAsciiSpace(key)
  {
  }

  /**
   * `createChecklistField`: keeps an existing Id and generates a "checklist-" one from the
   * checklist's own counter table only when it is empty, then builds the wrapper for the
   * lower-cased Type; `None` when the creator throws, which rejects the whole checklist.
   */
  method CreateChecklistField(gen: FieldIdGenerator, fd: FieldDescriptor) returns (named: FieldDescriptor, wrapper: Option<ChecklistWrapper>)
    requires gen.prefix == "checklist-"
    modifies gen
    ensures var slug := gen.Slug(fd.Name, "");
            && named == fd.(Id := if fd.Id != "" then fd.Id else IdFor(slug, CountIn(old(gen.ids), slug)))
            && gen.ids == (if fd.Id != "" then old(gen.ids) else Bump(old(gen.ids), slug))
    ensures wrapper == if ValidToken(fd.Type + "-wrapper") then Some(RenderChecklist(ChecklistCreatorFor(fd.Type), named)) else None
  {
    var id := fd.Id;
    if id == "" {
      id := gen.Generate(fd.Name, "");
    }
    named := fd.(Id := id);
    if ValidToken(fd.Type + "-wrapper") {
      wrapper := Some(RenderChecklist(ChecklistCreatorFor(fd.Type), named));
    } else {
      wrapper := None;
    }
  }

  // ---------------------------------------------------------------- progress

  /** The number of checked boxes (`:checked` matches). */
  function CountChecked(checked: seq<bool>): (n: nat)
    ensures n <= |checked|
    ensures n == multiset(checked)[true]
  {
    if checked == [] then 0
    else
      var init := checked[..|checked| - 1];
      assert checked == init + [checked[|checked| - 1]];
      CountChecked(init) + (if checked[|checked| - 1] then 1 else 0)
  }

  /** Flipping one box moves the count by exactly one, up when the box was unchecked. */
  lemma CountCheckedFlip(checked: seq<bool>, i: nat)
    requires i < |checked|
    ensures !checked[i] ==> CountChecked(checked[i := true]) == CountChecked(checked) + 1
    ensures checked[i] ==> CountChecked(checked[i := false]) + 1 == CountChecked(checked)
  {
    var s := checked[i := !checked[i]];
    assert checked == checked[..i] + [checked[i]] + checked[i + 1..];
    assert s == checked[..i] + [!checked[i]] + checked[i + 1..];
  }

  /** Every box checked exactly when the count reaches the total. */
  lemma {:induction false} CountCheckedAll(checked: seq<bool>)
    ensures CountChecked(checked) == |checked| <==> forall i :: 0 <= i < |checked| ==> checked[i]
    ensures CountChecked(checked) == 0 <==> forall i :: 0 <= i < |checked| ==> !checked[i]
  {
    if checked != [] {
      var init := checked[..|checked| - 1];
      CountCheckedAll(init);
      assert forall i :: 0 <= i < |init| ==> init[i] == checked[i];
    }
  }

  /**
   * The percentage: 0 without boxes, otherwise completed/total × 100 rounded half up, that is
   * the integer nearest to it with halves going up.
   */
  function Percentage(completed: nat, total: nat): (p: nat)
    ensures total == 0 ==> p == 0
    ensures total > 0 ==> 2 * total * p <= 200 * completed + total < 2 * total * (p + 1)
  {
    if total == 0 then 0 else (200 * completed + total) / (2 * total)
  }

  /** Arithmetic step for the monotonicity of `Percentage`; it states nothing about the checklist itself. */
  lemma MulMonotone(y: nat, a: nat, b: nat)
    requires a <= b
    ensures y * a <= y * b
  {
  }

  /**
   * The percentage stays within 0..100, is 0 with nothing checked, 100 with everything
   * checked, and never falls when more boxes are checked.
   */
  lemma PercentageBounds(completed: nat, total: nat)
    requires completed <= total
    ensures Percentage(completed, total) <= 100
    ensures completed == 0 ==> Percentage(completed, total) == 0
    ensures completed == total > 0 ==> Percentage(completed, total) == 100
  {
    var p := Percentage(completed, total);
    if total > 0 {
      if p >= 101 {
        MulMonotone(2 * total, 101, p);
        assert false;
      }
      if completed == 0 && p >= 1 {
        MulMonotone(2 * total, 1, p);
        assert false;
      }
      if completed == total && p <= 99 {
        MulMonotone(2 * total, p + 1, 100);
        assert false;
      }
    }
  }

  lemma PercentageMonotone(c1: nat, c2: nat, total: nat)
    requires c1 <= c2
    ensures Percentage(c1, total) <= Percentage(c2, total)
  {
    var p1, p2 := Percentage(c1, total), Percentage(c2, total);
    if total > 0 && p1 > p2 {
      MulMonotone(2 * total, p2 + 1, p1);
      assert false;
    }
  }

  /** Rounding shows 100% before the last box is checked: 199 of 200 reads 100% without completion. */
  lemma HundredPercentBeforeCompletion()
    ensures Percentage(199, 200) == 100 && !TriggersCompletion(199, 200)
  {
  }

  datatype Status = AllCompleted | PartiallyCompleted | NotStarted

  /** The three class toggles, each computed on its own. */
  predicate AllCompletedClass(completed: nat, total: nat) { completed == total && total > 0 }
  predicate PartiallyCompletedClass(completed: nat, total: nat) { completed > 0 && completed < total }
  predicate NotStartedClass(completed: nat, total: nat) { completed == 0 }

  /** Exactly one status class holds whenever the count does not exceed the total. */
  lemma ExactlyOneStatus(completed: nat, total: nat)
    requires completed <= total
    ensures AllCompletedClass(completed, total) || PartiallyCompletedClass(completed, total) || NotStartedClass(completed, total)
    ensures !(AllCompletedClass(completed, total) && PartiallyCompletedClass(completed, total))
    ensures !(AllCompletedClass(completed, total) && NotStartedClass(completed, total))
    ensures !(PartiallyCompletedClass(completed, total) && NotStartedClass(completed, total))
  {
  }

  /** The status the classes name. */
  function StatusOf(completed: nat, total: nat): (s: Status)
    requires completed <= total
    ensures s == AllCompleted <==> AllCompletedClass(completed, total)
    ensures s == PartiallyCompleted <==> PartiallyCompletedClass(completed, total)
    ensures s == NotStarted <==> NotStartedClass(completed, total)
  {
    if completed == 0 then NotStarted
    else if completed < total then PartiallyCompleted
    else AllCompleted
  }

  /** `completed === total && total > 0 && completed > 0`. */
  predicate TriggersCompletion(completed: nat, total: nat) {
    completed == total && total > 0 && completed > 0
  }

  /** The completion modal opens exactly in the all-completed status. */
  lemma CompletionMeansAllCompleted(completed: nat, total: nat)
    requires completed <= total
    ensures TriggersCompletion(completed, total) <==> StatusOf(completed, total) == AllCompleted
  {
  }

  /** `${percentage}%`. */
  function ProgressText(percentage: nat): string {
    NatToString(percentage) + "%"
  }

  /** `${completed} of ${total} completed`. */
  function CountText(completed: nat, total: nat): string {
    NatToString(completed) + " of " + NatToString(total) + " completed"
  }

  /** The percentage text ends in "%" and its digits read back as the percentage. */
  lemma ProgressTextReadsBack(percentage: nat)
    ensures var s := ProgressText(percentage);
            s[|s| - 1] == '%' && DecimalValue(s[..|s| - 1]) == percentage
  {
    var s := ProgressText(percentage);
    assert s[..|s| - 1] == NatToString(percentage);
    DecimalValueOfNatToString(percentage);
  }

  /** The count text names its two numbers unambiguously. */
  lemma CountTextInjective(c1: nat, t1: nat, c2: nat, t2: nat)
    requires CountText(c1, t1) == CountText(c2, t2)
    ensures c1 == c2 && t1 == t2
  {
    CountPartsUnique(NatToString(c1), NatToString(t1), NatToString(c2), NatToString(t2));
    if c1 != c2 {
      NatToStringInjective(c1, c2);
    }
    if t1 != t2 {
      NatToStringInjective(t1, t2);
    }
  }

  /** Two digit runs around " of " and before " completed" are read back unambiguously. */
  lemma CountPartsUnique(a1: string, b1: string, a2: string, b2: string)
    requires forall i :: 0 <= i < |a1| ==> IsDigit(a1[i])
    requires forall i :: 0 <= i < |b1| ==> IsDigit(b1[i])
    requires forall i :: 0 <= i < |a2| ==> IsDigit(a2[i])
    requires forall i :: 0 <= i < |b2| ==> IsDigit(b2[i])
    requires a1 + " of " + b1 + " completed" == a2 + " of " + b2 + " completed"
    ensures a1 == a2 && b1 == b2
  {
    var r1 := " of " + b1 + " completed";
    var r2 := " of " + b2 + " completed";
    assert a1 + " of " + b1 + " completed" == a1 + r1;
    assert a2 + " of " + b2 + " completed" == a2 + r2;
    DigitsPrefixUnique(a1, r1, a2, r2);
    assert r1[4..] == b1 + " completed";
    assert r2[4..] == b2 + " completed";
    DigitsPrefixUnique(b1, " completed", b2, " completed");
  }

  /** A run of digits followed by a non-digit splits only one way. */
  lemma DigitsPrefixUnique(a: string, x: string, b: string, y: string)
    requires forall i :: 0 <= i < |a| ==> IsDigit(a[i])
    requires forall i :: 0 <= i < |b| ==> IsDigit(b[i])
    requires x != [] && !IsDigit(x[0]) && y != [] && !IsDigit(y[0])
    requires a + x == b + y
    ensures a == b && x == y
  {
    var s := a + x;
    assert forall i :: 0 <= i < |a| ==> IsDigit(s[i]);
    assert !IsDigit(s[|a|]);
    assert forall i :: 0 <= i < |b| ==> IsDigit(s[i]);
    assert !IsDigit(s[|b|]);
    assert |a| == |b|;
    assert a == (a + x)[..|a|];
    assert b == (b + y)[..|b|];
    assert x == (a + x)[|a|..];
    assert y == (b + y)[|b|..];
  }

  /** With every box unchecked the tracker reads 0%, not started, and nothing triggers. */
  lemma NothingChecked(boxes: seq<bool>)
    requires forall j :: 0 <= j < |boxes| ==> !boxes[j]
    ensures boxes == seq(|boxes|, i => false)
    ensures CountChecked(boxes) == 0 && Percentage(0, |boxes|) == 0 && ProgressText(0) == "0%"
    ensures NotStartedClass(0, |boxes|) && !TriggersCompletion(0, |boxes|)
  {
    CountCheckedAll(boxes);
    PercentageBounds(0, |boxes|);
    assert NatToString(0) == "0";
  }

  /**
   * The checklist container's progress display and the state of its checkboxes.
   */
  class ChecklistProgress {
    /** `checked` of each checkbox, in document order. */
    var checked: seq<bool>
    var percentage: nat
    /** `.progress-text`. */
    var progressText: string
    /** `.progress-count`. */
    var countText: string
    /** The container's `all-completed`, `partially-completed` and `not-started` classes. */
    var allCompleted: bool
    var partiallyCompleted: bool
    var notStarted: bool
    /** Whether the completion modal carries `show`. */
    var modalShown: bool

    /** The display agrees with the checkboxes. */
    predicate Displays()
      reads this
    {
      var completed, total := CountChecked(checked), |checked|;
      && percentage == Percentage(completed, total)
      && progressText == ProgressText(percentage)
      && countText == CountText(completed, total)
      && allCompleted == AllCompletedClass(completed, total)
      && partiallyCompleted == PartiallyCompletedClass(completed, total)
      && notStarted == NotStartedClass(completed, total)
    }

    /** A freshly built checklist: `total` unchecked boxes and the tracker's initial texts. */
    constructor (total: nat)
      ensures checked == seq(total, i => false)
      ensures percentage == 0 && progressText == "0%" && countText == "0 of 0 completed"
      ensures !allCompleted && !partiallyCompleted && !notStarted && !modalShown
    {
      checked := seq(total, i => false);
      percentage := 0;
      progressText := "0%";
      countText := "0 of 0 completed";
      allCompleted, partiallyCompleted, notStarted := false, false, false;
      modalShown := false;
    }

    /**
     * `updateProgress`: the display recomputed from the checkboxes, exactly one status class
     * set, and the completion modal shown when every box is checked.
     */
    method UpdateProgress()
      modifies this
      ensures checked == old(checked)
      ensures Displays()
      ensures modalShown == (old(modalShown) || TriggersCompletion(CountChecked(checked), |checked|))
      ensures (allCompleted && !partiallyCompleted && !notStarted)
              || (!allCompleted && partiallyCompleted && !notStarted)
              || (!allCompleted && !partiallyCompleted && notStarted)
      ensures 0 <= percentage <= 100
    {
      var total := |checked|;
      var completed := CountChecked(checked);
      percentage := Percentage(completed, total);
      progressText := ProgressText(percentage);
      countText := CountText(completed, total);
      allCompleted := completed == total && total > 0;
      partiallyCompleted := completed > 0 && completed < total;
      notStarted := completed == 0;
      if completed == total && total > 0 && completed > 0 {
        modalShown := true;
      }
      ExactlyOneStatus(completed, total);
      PercentageBounds(completed, total);
    }

    /** A box's `change` listener after the user flips it. */
    method Toggle(i: nat)
      requires i < |checked|
      modifies this
      ensures checked == old(checked)[i := !old(checked)[i]]
      ensures Displays()
      ensures modalShown == (old(modalShown) || TriggersCompletion(CountChecked(checked), |checked|))
    {
      checked := checked[i := !checked[i]];
      UpdateProgress();
    }

    /**
     * `resetChecklist`: every box unchecked, then the display recomputed; progress reads 0%,
     * the status is not-started and no completion is triggered.
     */
    method ResetChecklist()
      modifies this
      ensures checked == seq(|old(checked)|, i => false)
      ensures Displays()
      ensures percentage == 0 && progressText == "0%" && notStarted && !allCompleted && !partiallyCompleted
      ensures modalShown == old(modalShown)
    {
      var boxes := checked;
      var i := 0;
      while i < |boxes|
        invariant 0 <= i <= |boxes| == |checked|
        invariant forall j :: 0 <= j < i ==> !boxes[j]
      {
        boxes := boxes[i := false];
        i := i + 1;
      }
      checked := boxes;
      NothingChecked(boxes);
      UpdateProgress();
    }

    /** Closing the modal (button, overlay or Escape): it loses `show` and the checklist is reset. */
    method CloseModal()
      modifies this
      ensures checked == seq(|old(checked)|, i => false)
      ensures Displays() && percentage == 0 && notStarted
      ensures !modalShown
    {
      modalShown := false;
      ResetChecklist();
    }
  }
}
