# Form and checklist blocks, modelled in Dafny

This project models the document-free rules behind two blocks of a page-building site.

- **The form block.** It reads a sheet of field descriptors (Name, Type, Label, Value,
  Mandatory, Options, Placeholder, Style, Fieldset, Id, ...). A field factory turns each row into a wrapper
  holding a control. The form is laid out, with each fieldset pulling in the wrappers that name
  it. It serialises its controls into a payload, checks the required fields and validates each
  control with a message. It keeps the submit button disabled while the required check fails,
  and gates submission on both checks.
- **The checklist block.** Its own factory builds checklist items, headings and text. Its
  progress tracker counts checked boxes, shows a rounded percentage, the texts "p%" and
  "k of n completed" and exactly one status class. It shows a completion modal when
  everything is checked and resets the checklist when that modal is closed.

The model has these modules:

- `JsText`: the JavaScript string built-ins the blocks use: ASCII `toLowerCase`, `trim` and
  `\s`, `split`/`join` on one character, `includes`, and `${n}` for a natural number.
- `HtmlRules`: the browser rules the factories run into: the class tokens `classList.add`
  refuses, the scheme without which `new URL` throws, and the sanitising of a value assigned
  to an input.
- `Descriptor`: the field descriptor, the `a || b` default, the heading level, and the
  creator-table lookup as the language performs it (own and inherited properties).
- `FieldIds`: the per-slug id counter, as a class. The form and the checklist each own one
  instance, with prefixes "form-" and "checklist-".
- `FormFields`: the form's field factory. It covers dispatch, the Mandatory test, select
  options, per-type defaults, the cases where a creator throws, and `createField`.
- `FormLayout`: how `createForm` appends the wrappers and groups them into fieldsets. The
  grouping runs over a tree of wrapper positions.
- `FormBlock`: `generatePayload`, `checkAllRequiredFields`, `validateFormFields`,
  `updateSubmitState`, `handleSubmit` and the `touched` listeners. The live form is the class
  `Form`, which holds the controls in document order, their messages and the banner flag.
- `Checklist`: the checklist factory and the progress tracker. The tracker is the class
  `ChecklistProgress`, holding the checkbox states and everything the tracker displays.

`toClassName` (from the site's shared scripts) is not part of this model. It is a function
parameter of the id generator, and nothing is assumed about it. The remote option list of a
select (an `https://` Options value) is a function parameter standing for the fetched rows;
it answers "none" when the URL, the request or its JSON fails, and the creator then throws.
A creator that throws rejects the `Promise.all` of `createForm`, so no form is built.

## Model

| member | source | states |
|---|---|---|
| JsText.Lower | blocks/form/form-fields.js:233 | the lower-cased string has the same length and lower-cases each ASCII letter, position by position |
| JsText.LowerIdempotent | blocks/form/form-fields.js:233-234 | lower-casing a lower-cased type changes nothing, so the table keys look themselves up |
| JsText.Trim | blocks/form/form-fields.js:71-72 | the trimmed string is no longer than the input and starts and ends with non-white-space |
| JsText.TrimIsSlice | blocks/form/form-fields.js:98-101 | trim removes only white space, and only from the two ends: the result is a slice of the input with only white space before and after it |
| JsText.TrimEmptyIffBlank | blocks/form/form.js:111-113 | a value trims to "" exactly when it is made of white space only |
| JsText.TrimIdempotent | blocks/form/form-fields.js:71-72 | trimming an already trimmed option text changes nothing (comma pieces are trimmed twice) |
| JsText.Split | blocks/form/form-fields.js:98 | `split(',')` yields at least one piece and no piece contains the separator |
| JsText.JoinSplit | blocks/form/form-fields.js:98 | joining the pieces of a split with the separator gives back the Options string |
| JsText.SplitJoin | blocks/form/form.js:52 | splitting a comma-join of comma-free values gives back the values |
| JsText.NatToString | blocks/checklist/checklist-fields.js:111 | `${n}` is non-empty, all decimal digits, without a leading zero |
| JsText.DecimalValueOfNatToString | blocks/checklist/checklist-fields.js:111 | reading the rendered digits back gives the number |
| JsText.NatToStringInjective | blocks/checklist/checklist-fields.js:115 | different numbers render as different strings |
| Descriptor.OrElse | blocks/form/form-fields.js:46 | `a \|\| b` on strings: a non-empty left operand wins, the right one stands otherwise, and the result is empty exactly when both are |
| Descriptor.HeadingLevel | blocks/form/form-fields.js:44 | the heading level is 2 or 3 |
| Descriptor.SubHeadingAnywhere | blocks/form/form-fields.js:44 | a Style that contains "sub-heading" anywhere gives level 3 |
| HtmlRules.WrapperTokenValid | blocks/form/form-fields.js:6 | the `<Type>-wrapper` class is accepted exactly when the Type holds no ASCII white space |
| HtmlRules.LowerKeepsAsciiSpace | blocks/form/form-fields.js:233 | lower-casing a Type neither adds nor removes white space |
| HtmlRules.NoUrlSchemeExamples | blocks/form/form-fields.js:115 | "" and "/thanks" have no scheme, so `new URL` throws on them |
| HtmlRules.HttpsHasScheme | blocks/form/form-fields.js:115 | every "https:" address has a scheme |
| HtmlRules.StripNewlines | blocks/form/form-fields.js:38 | a one-character string loses exactly a CR or LF, and the result never holds a line break |
| HtmlRules.StripNewlinesAppend | blocks/form/form-fields.js:38 | stripping distributes over concatenation, so with the one-character case it removes exactly the line breaks and keeps every other character in order |
| HtmlRules.TrimAscii | blocks/form/form-fields.js:38 | ASCII trimming cuts only white space, and only from the two ends; the ends left are not white space |
| HtmlRules.Sanitized | blocks/form/form-fields.js:38 | text, search, tel and password values are the value with its line breaks stripped; url and email values are the line-stripped value with only ASCII white space cut from its two ends, and their own ends are not white space; a number is kept exactly when it is a valid number and is "" otherwise; a colour is the lower-cased value when it is '#' and six hex digits, and "#000000" otherwise |
| HtmlRules.SanitizedIdempotent | blocks/form/form-fields.js:38 | assigning the value an input reports changes nothing |
| HtmlRules.EmailSanitizedExample | blocks/form/form-fields.js:38 | " a@b.co" with a line break reads "a@b.co" |
| HtmlRules.NewlineDropped | blocks/form/form-fields.js:38 | a line break between two strings is dropped and each side is stripped on its own |
| HtmlRules.TelLineBreakDropped | blocks/form/form-fields.js:38 | a CR LF between two break-free parts of a telephone number is dropped and the parts are joined |
| HtmlRules.NumberSanitizedKeeps | blocks/form/form-fields.js:38 | "1.5e3" is kept |
| HtmlRules.NegativeFractionKept | blocks/form/form-fields.js:38 | "-.5" is kept |
| HtmlRules.NumberSanitizedDrops | blocks/form/form-fields.js:38 | "12abc" and "1." become "" |
| HtmlRules.ColorSanitizedExamples | blocks/form/form-fields.js:38 | "#ABCDEF" reads "#abcdef" and "red" reads "#000000" |
| FieldIds.Bump | blocks/form/form-fields.js:16-18 | the requested slug's counter rises by exactly one and every other slug's counter is unchanged |
| FieldIds.IdsForOneSlugDistinct | blocks/form/form-fields.js:17-19 | two requests for the same slug at different counts give different ids |
| FieldIds.FieldIdGenerator.constructor | blocks/form/form-fields.js:13 | a generator starts with an empty counter table and its own prefix |
| FieldIds.FieldIdGenerator.Generate | blocks/form/form-fields.js:14-20 | the first id for a slug is the bare slug and the k-th later one is `slug-k`; the table is bumped for that slug only |
| FormFields.Controls | blocks/form/form.js:46 | each wrapper adds at most one control to `form.elements` |
| FormFields.MandatorySpellings | blocks/form/form-fields.js:36 | a field is required exactly when Mandatory is "true" in any case, "x" or "X"; "" and everything else leave it optional |
| FormFields.CreatorFor | blocks/form/form-fields.js:218-234 | a lower-cased Type found in the table selects its creator; the plain input is chosen exactly when it is not found |
| FormFields.DispatchIgnoresCase | blocks/form/form-fields.js:233-234 | dispatch depends only on the lower-cased Type |
| FormFields.DispatchAsWrittenMisroutes | blocks/form/form-fields.js:234 | the lookup as written, on Types "constructor" and "__proto__", yields no wrapper or throws, where the intended dispatch picks the plain input |
| FormFields.DispatchAsWrittenAgreesElsewhere | blocks/form/form-fields.js:234 | for every other Type the lookup as written runs the intended creator |
| FormFields.RemotePairs | blocks/form/form-fields.js:91-96 | each fetched row gives one option, in order, with text Option and value Value, or Option when Value is empty |
| FormFields.PiecePairs | blocks/form/form-fields.js:98-101 | each comma piece gives one option, in order, with text and value the trimmed piece |
| FormFields.AddedOptions | blocks/form/form-fields.js:69-78 | each added option has its text and value trimmed and is selected exactly when its value equals the field's Value |
| FormFields.PlaceholderOptions | blocks/form/form-fields.js:80-83 | a placeholder option is added exactly when Placeholder is non-empty |
| FormFields.OptionList | blocks/form/form-fields.js:80-105 | the option count is the placeholder plus the sources; an option is selected exactly when its value equals Value |
| FormFields.BuildOptions | blocks/form/form-fields.js:80-105 | the loops that fill the select give exactly the option list |
| FormFields.CollectRemote | blocks/form/form-fields.js:91-96 | the loop over fetched rows gives exactly their option pairs |
| FormFields.AddAll | blocks/form/form-fields.js:104 | the `forEach(addOption)` loop appends exactly the added options after the existing ones |
| FormFields.CommaOptionsInOrder | blocks/form/form-fields.js:97-104 | the i-th comma piece becomes the option right after the placeholder slot plus i, with trimmed text and value, selected exactly when it equals Value, not disabled |
| FormFields.PlaceholderComesFirst | blocks/form/form-fields.js:80-83 | with a Placeholder, the first option is the disabled placeholder with value "" |
| FormFields.LastSelected | blocks/form/form-fields.js:73-76 | the reported option is selected and no later option is; none is reported only when no option is selected |
| FormFields.SelectReportsMatchingValue | blocks/form/form-fields.js:73-75 | when some option's value equals Value, the select's value is Value |
| FormFields.InputKind | blocks/form/form-fields.js:146 | an input's type is a known HTML type: the lower-cased Type when that is known, "text" otherwise |
| FormFields.InputValue | blocks/form/form-fields.js:146-147 | the type is set before the value, so the value is sanitised by the input's type; radios, checkboxes and hidden inputs keep the Value as given |
| FormFields.RenderDefaults | blocks/form/form-fields.js:3-216 | a creator throws exactly when `CreatorThrows` says; otherwise only "confirmation" gives no wrapper, and labels point at their control and share its required flag |
| FormFields.ControlDefaults | blocks/form/form-fields.js:41-216 | when the creator does not throw: a radio keeps a non-empty input value and otherwise takes the Label, else "on"; a toggle is a checkbox that keeps a non-empty input value and otherwise takes "on"; a heading is h3 exactly when Style contains "sub-heading"; the label follows the input exactly for Types "radio" and "checkbox" |
| FormFields.DispatchedThrows | blocks/form/form-fields.js:6 | after dispatch only the fallback input or a confirmation can throw; the fallback input throws exactly for a Type holding white space or a file input given a Value |
| FormFields.SpacedTypeThrows | blocks/form/form-fields.js:6 | Type "text area" falls back to the plain input, whose `text area-wrapper` class is refused |
| FormFields.FileInputThrows | blocks/form/form-fields.js:38 | a "File" input throws exactly when its Value is non-empty |
| FormFields.ConfirmationThrows | blocks/form/form-fields.js:115 | a confirmation Value "" or "/thanks" makes `new URL` throw; an "https:" address does not |
| FormFields.CreateField | blocks/form/form-fields.js:231-237 | with the "form-" table: an existing Id is kept and one is generated only when it is empty; the creator is chosen from the lower-cased Type; it throws when that creator throws or the option fetch fails, and only a labelled creator that does not throw draws a "-label" id |
| FormLayout.AppendedSkipsConfirmations | blocks/form/form.js:19-21 | wrappers are appended in row order and a confirmation contributes nothing wherever it stands |
| FormLayout.FieldsetIds | blocks/form/form.js:23 | every position listed is a fieldset wrapper |
| FormLayout.Matches | blocks/form/form.js:25 | every matched wrapper is in the layout's current document order |
| FormLayout.Initial | blocks/form/form.js:19-21 | before grouping, the wrappers stand side by side in row order |
| FormLayout.GroupFieldsets | blocks/form/form.js:23-28 | the grouping loops give exactly the grouped layout, or no form when an append is refused |
| FormLayout.MoveKeepsEachOnce | blocks/form/form.js:26 | moving a wrapper into a fieldset that it does not contain keeps every wrapper exactly once |
| FormLayout.GroupingKeepsEveryWrapper | blocks/form/form.js:23-28 | when grouping succeeds, every appended wrapper occurs exactly once in the layout, none lost and none duplicated |
| FormLayout.SelfNamedFieldsetBreaksTheForm | blocks/form/form.js:25-26 | a fieldset whose own wrapper carries its name (Fieldset equal to Name, both empty included) makes the append throw, so no form is built |
| FormLayout.NoFieldsetsKeepsRowOrder | blocks/form/form.js:23-28 | without fieldsets the layout is the wrappers in row order |
| FormLayout.MoveMakesMember | blocks/form/form.js:26 | a permitted `fieldset.append(wrapper)` makes the wrapper a direct member of the fieldset |
| FormLayout.MoveKeepsMember | blocks/form/form.js:26 | moving another wrapper leaves every direct membership in place, even when the fieldset itself moves |
| FormLayout.GroupingNestsNamedWrappers | blocks/form/form.js:23-28 | when the form is built and a fieldset's name is unique, every other wrapper whose Fieldset names it is a direct member of that fieldset |
| FormLayout.CreateForm | blocks/form/form.js:8-41 | no form when any creator threw; otherwise the form's controls are the grouped wrappers' controls in document order, with the submit control disabled, and no form when grouping throws |
| FormBlock.GeneratePayload | blocks/form/form.js:44-60 | the loop computes exactly the payload fold of the controls in document order |
| FormBlock.PayloadKeys | blocks/form/form.js:47-56 | a name is a payload key exactly when some named, enabled, non-submit control writes it (radios and checkboxes only when checked) |
| FormBlock.PayloadIgnoresNonWriter | blocks/form/form.js:47 | an unnamed, submit, disabled or unchecked radio/checkbox control changes nothing in the payload |
| FormBlock.PayloadLastWriterWins | blocks/form/form.js:54-56 | a non-checkbox writer with no later writer of its name leaves its own value under that name |
| FormBlock.PayloadCheckboxJoin | blocks/form/form.js:50-53 | checked checkboxes with non-empty values sharing a name give those values comma-joined in document order |
| FormBlock.WrittenValuesEmpty | blocks/form/form.js:50-53 | when no value is written for a name, no control writes that name, so unchecked boxes create no key |
| FormBlock.EmailPatternIff | blocks/form/form.js:78 | the email pattern accepts exactly the strings without white space and with exactly one "@", a non-empty part before it and a "." inside the part after it |
| FormBlock.CheckAllRequiredFields | blocks/form/form.js:101-151 | the loop with its processed-group set is true exactly when every control passes the required check |
| FormBlock.SkippedControlsNeverFail | blocks/form/form.js:106 | adding a submit or disabled control never makes the required check fail |
| FormBlock.ValidateFields | blocks/form/form.js:62-99 | the messages are recomputed for every control and the result is true exactly when none has a message |
| FormBlock.MessageMeaning | blocks/form/form.js:71-82 | a message appears only when validateAll is set or the control is touched; each kind of message appears exactly under its own rule |
| FormBlock.TouchedIgnoresValidateAll | blocks/form/form.js:73-76 | a touched control gets the same message with or without validateAll |
| FormBlock.FullValidationIsStrongest | blocks/form/form.js:75-82 | a form valid under validateAll is valid without it |
| FormBlock.ChecksAreIndependent | blocks/form/form.js:118-126 | the two checks disagree both ways: a required email-typed control named otherwise fails only the required check, and an email-named text control fails only validation |
| FormBlock.FirstSubmit | blocks/form/form.js:158 | the submit query finds the first submit button or submit input in document order, and finds none only when there is none |
| FormBlock.SubmitStateInvisible | blocks/form/form.js:163-166 | setting the submit control's disabled flag changes neither which control is found, nor the required check, nor the messages, nor the payload |
| FormBlock.Form.constructor | blocks/form/form.js:31-39 | a built form has its submit control disabled, no messages and no banner |
| FormBlock.Form.UpdateSubmitState | blocks/form/form.js:157-167 | the submit control is disabled exactly when the required check fails, and nothing else changes |
| FormBlock.Form.Validate | blocks/form/form.js:62-99 | the messages are recomputed from the controls; the banner shows exactly when some control has a message and validateAll is set |
| FormBlock.Form.Touch | blocks/form/form.js:201-222 | the control is marked touched, the form is validated without validateAll, and the submit state is refreshed |
| FormBlock.Form.HandleSubmit | blocks/form/form.js:169-190 | submission succeeds exactly when the required check and full validation pass and a submit control exists; only then is the payload built, and the submit control ends enabled |
| Checklist.ChecklistDispatch | blocks/checklist/checklist-fields.js:225-235 | "heading" and "plaintext" in any case choose their creators; every other Type, "checklist-item", "checkbox" and unknown ones included, makes a checklist item |
| Checklist.ChecklistDispatchAsWrittenMisroutes | blocks/checklist/checklist-fields.js:235 | the lookup as written, on "constructor" and "__proto__", yields no wrapper or throws, where the intended dispatch makes an item |
| Checklist.ChecklistDispatchAgreesElsewhere | blocks/checklist/checklist-fields.js:235 | for every other Type the lookup as written runs the intended creator |
| Checklist.AttributeDefaults | blocks/checklist/checklist-fields.js:20-26 | value defaults to "checked", priority to "normal", description to ""; non-empty descriptor values are kept |
| Checklist.PriorityClasses | blocks/checklist/checklist-fields.js:137-141 | "high" adds priority-high, "medium" adds priority-medium, and any other priority adds no class |
| Checklist.ItemRendering | blocks/checklist/checklist-fields.js:129-173 | an item carries a priority class exactly for "high" or "medium"; its title is Label or Name; it has a description exactly when Description is non-empty |
| Checklist.NotPriorityClass | blocks/checklist/checklist-fields.js:6 | the `<Type>-wrapper` class can never be mistaken for a priority class |
| Checklist.ChecklistThrowsOnlyForItems | blocks/checklist/checklist-fields.js:6 | the wrapper class is refused exactly for a Type holding white space, and such a Type always lands on the item creator |
| Checklist.CreateChecklistField | blocks/checklist/checklist-fields.js:232-239 | with the "checklist-" table: an existing Id is kept, else an id is drawn from the checklist's own table; the creator is chosen from the lower-cased Type; no wrapper (the creator throws) when the Type holds white space |
| Checklist.CountChecked | blocks/checklist/checklist-fields.js:91-94 | the count is the number of `true` entries, so never more than the number of checkboxes |
| Checklist.CountCheckedFlip | blocks/checklist/checklist-fields.js:170 | checking an unchecked box raises the count by one, and unchecking a checked box lowers it by one |
| Checklist.CountCheckedAll | blocks/checklist/checklist-fields.js:91-94 | all are counted exactly when every box is checked, and none exactly when no box is |
| Checklist.Percentage | blocks/checklist/checklist-fields.js:95 | 0 when there are no boxes, otherwise completed/total x 100 rounded half up |
| Checklist.PercentageBounds | blocks/checklist/checklist-fields.js:95 | the percentage lies in 0..100, is 0 with nothing checked and 100 when everything is |
| Checklist.PercentageMonotone | blocks/checklist/checklist-fields.js:95 | checking more boxes never lowers the percentage |
| Checklist.HundredPercentBeforeCompletion | blocks/checklist/checklist-fields.js:95 | 199 of 200 already reads 100% while completion is not triggered |
| Checklist.ExactlyOneStatus | blocks/checklist/checklist-fields.js:118-120 | with completed <= total, exactly one of all-completed, partially-completed and not-started holds |
| Checklist.StatusOf | blocks/checklist/checklist-fields.js:118-120 | each status is chosen exactly when its class condition holds |
| Checklist.CompletionMeansAllCompleted | blocks/checklist/checklist-fields.js:122-124 | the completion modal is triggered exactly when the status is all-completed |
| Checklist.ProgressTextReadsBack | blocks/checklist/checklist-fields.js:110-112 | the progress text is the percentage's digits followed by "%" |
| Checklist.CountTextInjective | blocks/checklist/checklist-fields.js:114-116 | "k of n completed" determines both k and n |
| Checklist.ChecklistProgress.constructor | blocks/checklist/checklist-fields.js:204-223 | a new tracker shows "0%" and "0 of 0 completed", with no status class and no modal |
| Checklist.ChecklistProgress.UpdateProgress | blocks/checklist/checklist-fields.js:90-125 | the display matches the boxes, exactly one status class is set, the percentage is in 0..100, and the modal is shown when completion is triggered |
| Checklist.ChecklistProgress.Toggle | blocks/checklist/checklist-fields.js:170 | flipping a box recomputes the display from the new states |
| Checklist.ChecklistProgress.ResetChecklist | blocks/checklist/checklist-fields.js:48-54 | every box ends unchecked; progress reads 0% with status not-started, and the modal is not triggered again |
| Checklist.ChecklistProgress.CloseModal | blocks/checklist/checklist-fields.js:69-73 | closing the modal hides it and resets the checklist |

## Left out

- Network and storage. The fetch of the form sheet and of remote option lists, `localStorage`
  and the redirect after submit are browser I/O. Fetched option rows are a parameter, and a failed fetch
  of them is its "none" answer.
- FormFields.CreateField: each call is modelled alone, and `FormLayout.CreateForm` takes the
  created fields as a parameter; the `json.data.map(fd => createField(fd, form))` over the rows
  is not modelled. With a remote option list the label id is drawn after the fetch completes,
  so concurrent calls can interleave their counter updates; the ids come out in row order only
  when each row is awaited in turn.
- Event wiring and timers are not modelled as such. This covers `setTimeout` deferrals,
  the form's `submit` listener and the Enter key. It also covers the extra `updateSubmitState`
  after 100 ms, the toggle slider's click and the modal's cloned buttons and Escape handler.
  The listeners appear only as the methods `Touch`, `Toggle` and `CloseModal`.
- Presentation is left out: styles, error-marker elements, the SVG progress circle (floating
  point), the modal markup and `data-submitting`.
- FormFields.CreatorThrows: `new URL(fd.Value)` is modelled only by its scheme test. A Value
  with a scheme that the URL parser still rejects (an "https://" with no host, say) is taken
  as accepted, so that form is modelled as built where the browser builds none. The
  `pathname` stored in `data-confirmation` is not computed: the target kept is the Value.
- FormFields.InputValue: sanitising is modelled for the text, search, tel, password, url,
  email, number and color types. The date, time, month, week, datetime-local and range
  rules, and a textarea's line-break normalisation, are not: those values are kept as given.
  User edits, which the browser sanitises the same way, are not modelled; the values are
  inputs to the model.
- Radio buttons are not made mutually exclusive. The `checked` flags are inputs to the model,
  as the browser leaves them.
- Checklist.Percentage: integer round-half-up of completed/total x 100. The source multiplies
  floating-point numbers, which can land just below a half and round down where the exact
  value rounds up.
- JsText.Lower: only ASCII letters are lower-cased. `toLowerCase` also maps other Unicode
  letters.
- FormBlock.MessageFor, FormBlock.ValueAcceptable, FormBlock.CheckAllRequiredFields: a
  password's length is counted in characters. The source counts UTF-16 code units.
- Descriptor.FieldDescriptor: every column is taken to arrive as a string, an absent one as
  "". A row missing the Type or Mandatory column makes `toLowerCase` throw in the source; that
  case is not modelled.
- Selector syntax errors are not modelled. A field name containing a quote breaks the radio
  group and fieldset queries.
- Payload keys that name inherited object properties are not modelled.
- `blocks/checklist/checklist.js`, the other blocks and the commented-out code are not part of
  this model.

## Findings

| source | as written | input that shows it | evidently intended | confidence | as-written member | corrected member |
|---|---|---|---|---|---|---|
| blocks/form/form-fields.js:234 | the creator table is indexed with the lower-cased Type, which also reads properties inherited from `Object.prototype` | Type "constructor" picks `Object` and the field is silently dropped; Type "__proto__" makes `createField` throw, and the form is never built | an unknown Type falls back to a plain input | not executed | FormFields.DispatchAsWrittenMisroutes | FormFields.CreatorFor |
| blocks/checklist/checklist-fields.js:235 | the checklist creator table has the same inherited-property lookup | Type "constructor" gives no wrapper; Type "__proto__" throws | an unknown Type makes a checklist item | not executed | Checklist.ChecklistDispatchAsWrittenMisroutes | Checklist.ChecklistDispatch |
