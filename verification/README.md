# Dynamic form: the form state engine

This project models the state engine of the `DynamicForm` React component in Dafny. The component fetches a
field schema for the selected form type. It keeps the values typed into those fields and validates them
on submit. It stores each valid submission in a list per form type, from which a record can be loaded
back into the form or deleted. A progress bar shows the share of required fields that are filled.

The model's modules:

- `FormModel`: field schemas, the string maps for values, errors and records, and JavaScript's `trim`.
- `Validation`: the per-field checks of `validateForm` as the code runs them. It also gives a reference
  definition of the one message each field ends up with, and lemmas connecting the two.
- `Progress`: `calculateProgress`, computed as exact arithmetic rounded half up.
- `RecordStore`: the per-type record lists and the `push` and `splice` the handlers apply to them.
- `MockApi`: the three built-in schemas, and what a fetch for a form type yields.
- `Engine`: class `DynamicForm`. Its fields are the component's state hooks and its methods are the
  handlers.
- `Scenarios`: sessions driven through the handlers over the `userInfo` schema, with what each ends in.

`handleFormTypeChange` awaits the schema source. It is modelled as two methods:
`HandleFormTypeChange` runs on the change event and `CompleteFormTypeChange` runs when the fetch settles.
The fetch's outcome is a parameter of the second method (`MockApi.Fetch` gives the built-in source's
outcome). The code has no check that an answer belongs to the latest selection, so
`CompleteFormTypeChange` applies whatever it is given.

Whether a string is a number (`Number(v)` is not NaN) or a date (`new Date(v)` is valid) is decided by
the JavaScript engine. The model takes these two tests as a `Parsers` value with two `string -> bool`
functions, so every property holds for any choice of them.

## Behaviour worth knowing

The code behaves as follows, and the model with it:

- A valid submit while editing appends a new record. The record being edited stays where it is. Only the
  message differs ("Changes saved successfully!").
- Deleting a record does not reset the editing index, even when the deleted record is the one being
  edited.
- Changing the form type does not reset the editing index.
- A failed schema fetch keeps the previous field list; it does not clear it.
- The three checks of a field run one after another, so a later failed check overwrites an earlier
  message. The date or number message beats the required message.
- With no required field the progress is 0/0, which is NaN. It is not defined as 0.
- A late schema answer for an earlier selection is not discarded.

## Model

| member | source | states |
|---|---|---|
| `FormModel.TrimEmpty` | dynamic-form/src/components/DynamicForm.js:60 | `value.trim() === ""` holds exactly when every character is ECMAScript whitespace or a line terminator |
| `FormModel.TrimStart` | dynamic-form/src/components/DynamicForm.js:18 | the part `trim` keeps from the left is no longer than the value and does not start with whitespace |
| `FormModel.TrimEnd` | dynamic-form/src/components/DynamicForm.js:18 | the part `trim` keeps from the right is no longer than its input, does not end with whitespace, and keeps a non-whitespace first character |
| `FormModel.Trim` | dynamic-form/src/components/DynamicForm.js:60 | `value.trim()` is no longer than the value and neither starts nor ends with whitespace |
| `FormModel.TrimIsInfix` | dynamic-form/src/components/DynamicForm.js:18 | `trim` only cuts: its result is a contiguous piece of the value, everything cut before and after it is whitespace, and a non-empty result starts and ends with a non-whitespace character |
| `FormModel.FilledMeansNonBlank` | dynamic-form/src/components/DynamicForm.js:18 | a value counts as filled exactly when it is present and has a non-whitespace character |
| `Validation.RequiredMessage` | dynamic-form/src/components/DynamicForm.js:61 | "<label> is required" begins with the field's label and differs from that label's number and date messages |
| `Validation.NumberMessage` | dynamic-form/src/components/DynamicForm.js:64 | "<label> must be a valid number" begins with the field's label and differs from that label's date message |
| `Validation.DateMessage` | dynamic-form/src/components/DynamicForm.js:69 | "<label> must be a valid date" begins with the field's label |
| `Validation.FieldMessage` | dynamic-form/src/components/DynamicForm.js:60-71 | a field gets at most one message, one of "<label> is required", "... must be a valid number" or "... must be a valid date"; it gets none exactly when it passes all three checks; an optional text, password or dropdown field never gets one |
| `Validation.ApplyChecks` | dynamic-form/src/components/DynamicForm.js:59-71 | one pass of the `forEach` body: the three sequential `if`s write exactly the field's message into its entry, where a later matching check overwrites an earlier one, and leave every other entry alone; with no message the map is unchanged |
| `Validation.Validate` | dynamic-form/src/components/DynamicForm.js:57-72 | the map `validateForm` builds only has keys that are names of schema fields |
| `Validation.ValidateField` | dynamic-form/src/components/DynamicForm.js:57-72 | in a schema with unique names, each field has an entry exactly when one of its checks fails, and the entry is that field's message |
| `Validation.ValidateEmpty` | dynamic-form/src/components/DynamicForm.js:74-75 | the error map is empty (the form is valid) exactly when no field gets a message |
| `Validation.ValidateReadsSchemaFieldsOnly` | dynamic-form/src/components/DynamicForm.js:58-59 | the errors depend only on the values of the schema's own fields |
| `Validation.BlankRequiredDate` | dynamic-form/src/components/DynamicForm.js:60-70 | a required date field holding only whitespace that the host does not read as a date gets the date message, not the required message |
| `Validation.BlankRequiredNumber` | dynamic-form/src/components/DynamicForm.js:60-65 | a required number field holding only whitespace that the host reads as a number keeps the required message |
| `Progress.RequiredCount` | dynamic-form/src/components/DynamicForm.js:16 | the number of required fields is at most the number of fields, and positive exactly when some field is required (so the percentage is defined) |
| `Progress.CompletedCount` | dynamic-form/src/components/DynamicForm.js:16-19 | the number of completed fields never exceeds the number of required fields |
| `Progress.RoundedPercent` | dynamic-form/src/components/DynamicForm.js:20 | the rounded percentage of c out of r is in [0, 100]; it is 100 exactly when 200·(r − c) ≤ r and 0 exactly when 200·c < r |
| `Progress.Percent` | dynamic-form/src/components/DynamicForm.js:15-21 | with at least one required field, the progress is between 0 and 100 |
| `Progress.CompletedAll` | dynamic-form/src/components/DynamicForm.js:16-19 | every required field is counted as completed exactly when every required field is filled |
| `Progress.CompletedNone` | dynamic-form/src/components/DynamicForm.js:16-19 | no required field is counted as completed exactly when none is filled |
| `Progress.PercentFull` | dynamic-form/src/components/DynamicForm.js:15-21 | the progress is 100 when every required field is filled |
| `Progress.PercentEmpty` | dynamic-form/src/components/DynamicForm.js:15-21 | the progress is 0 when no required field is filled |
| `Progress.PercentFullOnlyWhenComplete` | dynamic-form/src/components/DynamicForm.js:15-21 | with fewer than 200 required fields, the progress is 100 only when every required field is filled |
| `Progress.PercentEmptyOnlyWhenNoneFilled` | dynamic-form/src/components/DynamicForm.js:15-21 | with at most 200 required fields, the progress is 0 only when no required field is filled |
| `Progress.CompletedMonotone` | dynamic-form/src/components/DynamicForm.js:17-19 | filling in more values never lowers the completed count |
| `RecordStore.Appended` | dynamic-form/src/components/DynamicForm.js:86-90 | the submitted type's list gains exactly the new record at its end, with earlier records unchanged; it is created as a one-record list when absent; every other type's list is unchanged |
| `RecordStore.Spliced` | dynamic-form/src/components/DynamicForm.js:114 | removing index i of a list with more than i records shortens the list by one; records before i stay put and records after i move down by one; an index past the end changes nothing |
| `RecordStore.SplicedMultiset` | dynamic-form/src/components/DynamicForm.js:114 | deleting removes exactly the one record at the index and no other |
| `MockApi.UserInfo` | dynamic-form/src/api/mockApi.js:4-10 | the `userInfo` schema is non-empty, has unique field names and gives options only to dropdowns |
| `MockApi.AddressInfo` | dynamic-form/src/api/mockApi.js:11-24 | the `addressInfo` schema is non-empty, has unique field names and gives options only to its dropdown |
| `MockApi.PaymentInfo` | dynamic-form/src/api/mockApi.js:25-32 | the `paymentInfo` schema is non-empty, has unique field names and gives options only to dropdowns |
| `MockApi.Fetch` | dynamic-form/src/api/mockApi.js:3-37 | a fetch loads a schema exactly for `userInfo`, `addressInfo` and `paymentInfo`, and fails for any other type; each loaded schema is non-empty, has unique names and lists options only for dropdowns |
| `Engine.DynamicForm.constructor` | dynamic-form/src/components/DynamicForm.js:5-12 | the initial state: no type, no fields, empty values, records and errors, no message, type "success", not editing |
| `Engine.DynamicForm.HandleFormTypeChange` | dynamic-form/src/components/DynamicForm.js:24-41 | sets the type and clears the values, errors and message; the empty type clears the fields and starts no fetch; records, editing index and message type are unchanged |
| `Engine.DynamicForm.CompleteFormTypeChange` | dynamic-form/src/components/DynamicForm.js:31-38 | a loaded schema replaces the fields; a failure keeps the fields and sets "Failed to load form structure." with type "error"; nothing else changes |
| `Engine.DynamicForm.HandleInputChange` | dynamic-form/src/components/DynamicForm.js:45-53 | sets the field's value and removes the field's error whatever the value; every other value and error is unchanged |
| `Engine.DynamicForm.ValidateForm` | dynamic-form/src/components/DynamicForm.js:56-76 | the loop replaces the errors with the map the checks build; its keys are schema field names; it returns true exactly when the map is empty, that is when no field gets a message |
| `Engine.DynamicForm.HandleSubmit` | dynamic-form/src/components/DynamicForm.js:79-100 | errors become the validation result. When valid, a copy of the values is appended to this type's list, also while editing; the message is "Changes saved successfully!" exactly when an edit was in progress, otherwise "Form submitted successfully!"; values are cleared and editing stops. When invalid, records, values and editing index stay, with message "Please fix the errors and try again." and type "error" |
| `Engine.DynamicForm.HandleEdit` | dynamic-form/src/components/DynamicForm.js:106-109 | sets the editing index and loads the stored record's values into the form; errors and records are unchanged |
| `Engine.DynamicForm.HandleDelete` | dynamic-form/src/components/DynamicForm.js:112-119 | splices the record out of this type's list and reports "Entry deleted successfully!"; other types' lists, the values, the errors and the editing index are unchanged |
| `Scenarios.NamesOnlyValid` | dynamic-form/src/api/mockApi.js:5-9 | `userInfo` with a filled first and last name and no age has no errors |
| `Scenarios.MissingFirstNameErrors` | dynamic-form/src/components/DynamicForm.js:60-62 | for `userInfo`, an empty first name beside a filled last name gives exactly the one first-name "required" error |
| `Scenarios.BadAgeErrors` | dynamic-form/src/components/DynamicForm.js:63-65 | for `userInfo` with both names filled, a non-empty age the host does not read as a number gives exactly `{age: "Age must be a valid number"}` |
| `Scenarios.SubmitFilledNames` | dynamic-form/src/components/DynamicForm.js:81-96 | submitting filled names always appends the values to the current type's list, whether or not an edit is in progress; the message depends only on whether one was |
| `Scenarios.OpenUserInfo` | dynamic-form/src/components/DynamicForm.js:24-34 | selecting `userInfo` and loading its schema gives the `userInfo` fields with empty values, errors and records |
| `Scenarios.SubmitMissingFirstName` | dynamic-form/src/components/DynamicForm.js:97-100 | the invalid submit reports the first-name error and the error message, and stores nothing |
| `Scenarios.SubmitBadAge` | dynamic-form/src/components/DynamicForm.js:63-65 | the bad age is the only error and nothing is stored |
| `Scenarios.SubmitJaneDoe` | dynamic-form/src/components/DynamicForm.js:81-96 | the first valid submit creates `userInfo`'s list with the one record, reports "Form submitted successfully!" and clears the values |
| `Scenarios.FirstSubmission` | dynamic-form/src/components/DynamicForm.js:86-95 | after the first valid submit the list is `[{firstName: "Jane", lastName: "Doe"}]` and the values are `{}` |
| `Scenarios.EditThenSubmit` | dynamic-form/src/components/DynamicForm.js:86-93 | editing record 0 and submitting a changed last name leaves two records, the original first, with message "Changes saved successfully!" |
| `Scenarios.DeleteFirstOfTwo` | dynamic-form/src/components/DynamicForm.js:112-116 | deleting record 0 of two leaves the former record 1 at index 0, with message "Entry deleted successfully!" |
| `Scenarios.DeleteWhileEditing` | dynamic-form/src/components/DynamicForm.js:112-118 | deleting the record under edit keeps the editing index past the end of the list; the next valid submit appends and still says "Changes saved successfully!" |
| `Scenarios.SwitchTypeWhileEditing` | dynamic-form/src/components/DynamicForm.js:24-42 | switching form type while editing keeps the editing index and the old type's records and clears the values |

## Left out

- The schema fetch's delay and Promise are left out. Only its outcome is modelled, as the parameter of `CompleteFormTypeChange`.
- The timers that clear the message three seconds after a submit or delete are left out. They are deferred callbacks that are never cancelled, so they concern timing rather than state logic.
- `Number(...)`, `isNaN` and `new Date(...)` belong to the JavaScript engine. They are left uninterpreted as the `Parsers` parameter.
- `Progress.Percent`: the code divides and multiplies in floating point and then applies `Math.round`. The model uses the exact ratio rounded half up, `(200·c + r) / (2·r)`. The two could differ only where a floating-point error crosses a .5 boundary.
- `Progress.Percent` requires at least one required field, because the code computes NaN otherwise.
- `Progress.PercentFullOnlyWhenComplete` is stated for fewer than 200 required fields only. From 200 fields on, one blank field among r gives at least 99.5%, which rounds to 100.
- `Progress.PercentEmptyOnlyWhenNoneFilled` is stated for at most 200 required fields only. Above 200 fields, one filled field among r gives less than 0.5%, which rounds to 0.
- JavaScript aliasing is left out. The shallow copy of `submittedData` shares the inner arrays that `push` and `splice` mutate, and `handleEdit` loads the stored record object itself. Every later write to the values copies first, so value semantics gives the same states.
- `Engine.DynamicForm.HandleEdit` requires an index within the current type's list. When the current type has no list, the code throws a TypeError reading `submittedData[formType][index]`. When the list exists but the index is past its end, the code sets the values to `undefined`, and rendering fails afterwards.
- `Engine.DynamicForm.HandleDelete` requires a list to exist for the current type, because the code throws otherwise. Indices are naturals. The table only ever passes valid ones, so a negative `splice` index is not modelled.
- Field types are the five the schemas use. The engine only tests for `number` and `date`, so any other type string would behave like `Text`. A field's `label` is called `caption` here, because `label` is a reserved word in Dafny.
- JavaScript object keys are modelled as plain map keys. Keys inherited from `Object.prototype` are not modelled.
- The JSX rendering of `DynamicForm.js` and the components `FormField.js`, `ProgressBar.js`, `Header.js`, `Footer.js` and `App.js` are left out; they are markup only.
