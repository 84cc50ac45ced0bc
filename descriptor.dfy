/**
 * A field descriptor: one row of the JSON document a form or a checklist is built from.
 * Every column arrives as a string; an absent or empty column is the empty string.
 * The heading rules here are written out identically in both field factories.
 */
module Descriptor {
  import opened Results
  import opened JsText

  datatype FieldDescriptor = FieldDescriptor(
    Type: string,
    Name: string,
    Label: string,
    Value: string,
    Placeholder: string,
    Mandatory: string,
    Options: string,
    Style: string,
    Fieldset: string,
    Description: string,
    Priority: string,
    Id: string)

  /** JavaScript's `a || b` on two strings: `a` unless it is empty. */
  function OrElse(a: string, b: string): (r: string)
    ensures r == a || r == b
    ensures r == "" <==> a == "" && b == ""
    ensures a != "" ==> r == a
  {
    if a != "" then a else b
  }

  /** The heading element's level: `h3` when the style mentions "sub-heading", `h2` otherwise. */
  function HeadingLevel(style: string): (level: nat)
    ensures level == 2 || level == 3
  {
    if Contains(style, "sub-heading") then 3 else 2
  }

  /** The text of a heading or plain-text paragraph: the Value, or the Label when the Value is empty. */
  function DisplayText(fd: FieldDescriptor): string {
    OrElse(fd.Value, fd.Label)
  }

  /** A style naming "sub-heading" anywhere, alone or inside a longer class name, gives an `h3`. */
  lemma SubHeadingAnywhere(before: string, after: string)
    ensures HeadingLevel(before + "sub-heading" + after) == 3
  {
    ContainsInfix(before, "sub-heading", after);
  }

  // ---------------------------------------------------------------- creator tables as written

  /**
   * What a property read on a plain object finds besides its own keys: among the names that
   * survive `toLowerCase`, "constructor" (the `Object` function) and "__proto__"
   * (`Object.prototype`, which is not callable).
   */
  datatype Inherited = ObjectFunction | ObjectPrototype

  function InheritedProperty(key: string): Option<Inherited> {
    if key == "constructor" then Some(ObjectFunction)
    else if key == "__proto__" then Some(ObjectPrototype)
    else None
  }

  /**
   * The creator a descriptor runs, or what happens instead: `Object(fd)` returns the
   * descriptor itself, which has no `fieldWrapper`, and calling `Object.prototype` throws.
   */
  datatype DispatchOutcome<C> = Runs(creator: C) | NoWrapper | Throws

  /** `TABLE[fd.Type.toLowerCase()] || fallback` on a plain object literal. */
  function TableDispatchAsWritten<C>(table: map<string, C>, fallback: C, fieldType: string): DispatchOutcome<C> {
    var key := Lower(fieldType);
    if key in table then Runs(table[key])
    else match InheritedProperty(key)
      case None => Runs(fallback)
      case Some(ObjectFunction) => NoWrapper
      case Some(ObjectPrototype) => Throws
  }
}
