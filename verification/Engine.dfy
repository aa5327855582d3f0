/**
  The state of the `DynamicForm` component and its event handlers. Each state
  hook becomes a field; each handler becomes a method that updates the fields
  as the handler's `set…` calls do, in order.

  `handleFormTypeChange` awaits the schema source, so it is split in two: the
  synchronous part that runs on the change event, and the completion that runs
  when the fetch settles. Nothing ties a completion to the latest change: a
  late answer for an earlier type is applied like any other.
 */
module Engine {
  import opened FormModel
  import opened Validation
  import opened RecordStore
  import opened MockApi

  datatype FeedbackType = Success | Error

  const FetchFailedMessage := "Failed to load form structure."
  const InvalidSubmitMessage := "Please fix the errors and try again."
  const SubmittedMessage := "Form submitted successfully!"
  const SavedMessage := "Changes saved successfully!"
  const DeletedMessage := "Entry deleted successfully!"

  class DynamicForm {
    var formType: string
    var formFields: seq<FieldSchema>
    var formData: Record
    var submittedData: Store
    var errors: Errors
    var feedbackMessage: Option<string>
    var feedbackType: FeedbackType
    var editingIndex: Option<nat>

    /** The initial values of the component's state hooks. */
    constructor ()
      ensures formType == "" && formFields == [] && formData == map[] && submittedData == map[]
      ensures errors == map[] && feedbackMessage == None && feedbackType == Success
      ensures editingIndex == None
    {
      formType := "";
      formFields := [];
      formData := map[];
      submittedData := map[];
      errors := map[];
      feedbackMessage := None;
      feedbackType := Success;
      editingIndex := None;
    }

    /**
      The synchronous part of `handleFormTypeChange`: select the type, clear the
      values, the errors and the message; an empty selection also clears the
      schema. `fetching` says whether a schema request is now outstanding.
     */
    method HandleFormTypeChange(selectedType: string) returns (fetching: bool)
      modifies this
      ensures fetching <==> selectedType != ""
      ensures formType == selectedType && formData == map[] && errors == map[] && feedbackMessage == None
      ensures formFields == if selectedType == "" then [] else old(formFields)
      ensures submittedData == old(submittedData) && editingIndex == old(editingIndex)
      ensures feedbackType == old(feedbackType)
    {
      formType := selectedType;
      formData := map[];
      errors := map[];
      feedbackMessage := None;
      fetching := selectedType != "";
      if !fetching {
        formFields := [];
      }
    }

    /**
      The completion of `handleFormTypeChange`: a loaded schema replaces the
      fields; a failure keeps the old fields and reports an error.
     */
    method CompleteFormTypeChange(outcome: FetchOutcome)
      modifies this
      ensures outcome.Loaded? ==> formFields == outcome.fields
                                  && feedbackMessage == old(feedbackMessage) && feedbackType == old(feedbackType)
      ensures outcome.Failed? ==> formFields == old(formFields)
                                  && feedbackMessage == Some(FetchFailedMessage) && feedbackType == Error
      ensures formType == old(formType) && formData == old(formData) && errors == old(errors)
      ensures submittedData == old(submittedData) && editingIndex == old(editingIndex)
    {
      match outcome
      case Loaded(fields) =>
        formFields := fields;
      case Failed =>
        feedbackMessage := Some(FetchFailedMessage);
        feedbackType := Error;
    }

    /** `handleInputChange`: store the value and drop that field's error, whatever the value. */
    method HandleInputChange(name: string, value: string)
      modifies this
      ensures formData == old(formData)[name := value]
      ensures errors == old(errors) - {name}
      ensures forall k :: k != name ==> Lookup(formData, k) == Lookup(old(formData), k)
      ensures forall k :: k != name ==> Lookup(errors, k) == Lookup(old(errors), k)
      ensures formType == old(formType) && formFields == old(formFields)
      ensures submittedData == old(submittedData) && editingIndex == old(editingIndex)
      ensures feedbackMessage == old(feedbackMessage) && feedbackType == old(feedbackType)
    {
      formData := formData[name := value];
      errors := errors - {name};
    }

    /**
      `validateForm`: rebuild the error map from the schema and the values,
      replace `errors` with it, and report whether it is empty.
     */
    method ValidateForm(p: Parsers) returns (valid: bool)
      modifies this`errors
      ensures errors == Validate(formFields, formData, p)
      ensures errors.Keys <= Names(formFields)
      ensures valid <==> errors == map[]
      ensures valid <==> forall i :: 0 <= i < |formFields|
                          ==> FieldMessage(formFields[i], Lookup(formData, formFields[i].name), p).None?
    {
      var newErrors: Errors := map[];
      var i := 0;
      while i < |formFields|
        invariant 0 <= i <= |formFields|
        invariant newErrors == Validate(formFields[..i], formData, p)
      {
        var field := formFields[i];
        var value := Lookup(formData, field.name);
        if field.required && !Filled(value) {
          newErrors := newErrors[field.name := RequiredMessage(field.caption)];
        }
        if field.kind == Number && Truthy(value) && !p.isNumber(value.value) {
          newErrors := newErrors[field.name := NumberMessage(field.caption)];
        }
        if field.kind == Date && Truthy(value) {
          if !p.isDate(value.value) {
            newErrors := newErrors[field.name := DateMessage(field.caption)];
          }
        }
        assert formFields[..i + 1][..i] == formFields[..i];
        i := i + 1;
      }
      assert formFields[..i] == formFields;
      errors := newErrors;
      ValidateEmpty(formFields, formData, p);
      valid := |errors| == 0;
    }

    /**
      `handleSubmit`: validate; when valid, append a copy of the values to this
      type's records (also while editing: the edited record is not replaced),
      report success, clear the values and stop editing; when invalid, report
      the error and leave values, records and editing state as they were.
     */
    method HandleSubmit(p: Parsers)
      modifies this
      ensures errors == Validate(old(formFields), old(formData), p)
      ensures formType == old(formType) && formFields == old(formFields)
      ensures errors == map[] ==>
                && submittedData == Appended(old(submittedData), old(formType), old(formData))
                && feedbackMessage == Some(if old(editingIndex).Some? then SavedMessage else SubmittedMessage)
                && feedbackType == Success
                && formData == map[] && editingIndex == None
      ensures errors != map[] ==>
                && submittedData == old(submittedData)
                && feedbackMessage == Some(InvalidSubmitMessage) && feedbackType == Error
                && formData == old(formData) && editingIndex == old(editingIndex)
    {
      var message := if editingIndex != None then SavedMessage else SubmittedMessage;
      var valid := ValidateForm(p);
      if valid {
        assert errors == map[];
        submittedData := Appended(submittedData, formType, formData);
        feedbackMessage := Some(message);
        feedbackType := Success;
        formData := map[];
        editingIndex := None;
      } else {
        assert errors != map[];
        feedbackMessage := Some(InvalidSubmitMessage);
        feedbackType := Error;
      }
    }

    /** `handleEdit`: mark record `index` of the current type as edited and load its values. */
    method HandleEdit(index: nat)
      requires index < |Records(submittedData, formType)|
      modifies this
      ensures formType == old(formType) && submittedData == old(submittedData)
      ensures editingIndex == Some(index)
      ensures formData == Records(submittedData, formType)[index]
      ensures formFields == old(formFields) && errors == old(errors)
      ensures feedbackMessage == old(feedbackMessage) && feedbackType == old(feedbackType)
    {
      editingIndex := Some(index);
      formData := submittedData[formType][index];
    }

    /**
      `handleDelete`: splice record `index` out of the current type's records
      and report success. The editing index is kept, even when it now names a
      different record or none.
     */
    method HandleDelete(index: nat)
      requires formType in submittedData
      modifies this
      ensures submittedData == old(submittedData[formType := Spliced(submittedData[formType], index)])
      ensures forall t :: t != formType ==> Records(submittedData, t) == Records(old(submittedData), t)
      ensures feedbackMessage == Some(DeletedMessage) && feedbackType == Success
      ensures formType == old(formType) && formFields == old(formFields)
      ensures formData == old(formData) && errors == old(errors) && editingIndex == old(editingIndex)
    {
      submittedData := submittedData[formType := Spliced(submittedData[formType], index)];
      feedbackMessage := Some(DeletedMessage);
      feedbackType := Success;
    }
  }
}
