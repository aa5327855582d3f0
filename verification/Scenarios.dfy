/**
  Sessions with the form over the built-in `userInfo` schema, driven through
  the handlers as the page would drive them, with what each ends in.
 */
module Scenarios {
  import opened FormModel
  import opened Validation
  import opened RecordStore
  import opened MockApi
  import opened Engine

  const JaneDoe: Record := map["firstName" := "Jane", "lastName" := "Doe"]
  const JaneSmith: Record := map["firstName" := "Jane", "lastName" := "Smith"]

  /** Validation of the `userInfo` schema is its three fields' checks in schema order. */
  lemma UserInfoValidate(data: Record, p: Parsers)
    ensures Validate(UserInfo(), data, p)
            == ApplyChecks(UserInfo()[2], data, p,
                 ApplyChecks(UserInfo()[1], data, p,
                   ApplyChecks(UserInfo()[0], data, p, map[])))
  {
    var u := UserInfo();
    assert Validate(u, data, p) == ApplyChecks(u[2], data, p, Validate(u[..2], data, p));
    assert u[..2][..1] == u[..1] && u[..1][..0] == [];
    assert Validate(u[..2], data, p) == ApplyChecks(u[1], data, p, Validate(u[..1], data, p));
    assert Validate(u[..1], data, p) == ApplyChecks(u[0], data, p, Validate([], data, p));
  }

  lemma NonBlankName(s: string)
    requires |s| > 0 && !IsWhitespace(s[0])
    ensures Filled(Some(s))
  {
  }

  lemma FilledTextPasses(f: FieldSchema, data: Record, p: Parsers, errs: Errors)
    requires f.kind == Text && Filled(Lookup(data, f.name))
    ensures ApplyChecks(f, data, p, errs) == errs
  {
  }

  lemma AbsentOptionalPasses(f: FieldSchema, data: Record, p: Parsers, errs: Errors)
    requires !f.required && f.name !in data
    ensures ApplyChecks(f, data, p, errs) == errs
  {
  }

  lemma BadNumberFlagged(f: FieldSchema, data: Record, p: Parsers, errs: Errors)
    requires f.kind == Number && !f.required && Truthy(Lookup(data, f.name))
    requires !p.isNumber(Lookup(data, f.name).value)
    ensures ApplyChecks(f, data, p, errs) == errs[f.name := NumberMessage(f.caption)]
  {
  }

  /** A filled first and last name and no age pass the `userInfo` checks. */
  lemma NamesOnlyValid(first: string, last: string, p: Parsers)
    requires Filled(Some(first)) && Filled(Some(last))
    ensures Validate(UserInfo(), map["firstName" := first, "lastName" := last], p) == map[]
  {
    var data := map["firstName" := first, "lastName" := last];
    var u := UserInfo();
    assert Lookup(data, "firstName") == Some(first) && Lookup(data, "lastName") == Some(last);
    FilledTextPasses(u[0], data, p, map[]);
    FilledTextPasses(u[1], data, p, map[]);
    AbsentOptionalPasses(u[2], data, p, map[]);
    UserInfoValidate(data, p);
  }

  /** An empty first name is the one error of `{firstName: "", lastName}` for a filled last name. */
  lemma MissingFirstNameErrors(last: string, p: Parsers)
    requires Filled(Some(last))
    ensures Validate(UserInfo(), map["firstName" := "", "lastName" := last], p)
            == map["firstName" := RequiredMessage("First Name")]
  {
    var data := map["firstName" := "", "lastName" := last];
    var u := UserInfo();
    assert Lookup(data, "firstName") == Some("") && Lookup(data, "lastName") == Some(last);
    assert ApplyChecks(u[0], data, p, map[]) == map["firstName" := RequiredMessage("First Name")];
    FilledTextPasses(u[1], data, p, map["firstName" := RequiredMessage("First Name")]);
    AbsentOptionalPasses(u[2], data, p, map["firstName" := RequiredMessage("First Name")]);
    UserInfoValidate(data, p);
  }

  /** An unreadable age is the one error when both names are filled. */
  lemma BadAgeErrors(first: string, last: string, age: string, p: Parsers)
    requires Filled(Some(first)) && Filled(Some(last)) && age != "" && !p.isNumber(age)
    ensures Validate(UserInfo(), map["firstName" := first, "lastName" := last, "age" := age], p)
            == map["age" := NumberMessage("Age")]
  {
    var data := map["firstName" := first, "lastName" := last, "age" := age];
    var u := UserInfo();
    assert Lookup(data, "firstName") == Some(first) && Lookup(data, "lastName") == Some(last);
    assert Lookup(data, "age") == Some(age);
    FilledTextPasses(u[0], data, p, map[]);
    FilledTextPasses(u[1], data, p, map[]);
    BadNumberFlagged(u[2], data, p, map[]);
    UserInfoValidate(data, p);
  }

  /** The message of a blank first name, spelled out. */
  lemma FirstNameRequiredMessage()
    ensures RequiredMessage("First Name") == "First Name is required"
  {
  }

  /** The message of an unreadable age, spelled out. */
  lemma AgeNumberMessage()
    ensures NumberMessage("Age") == "Age must be a valid number"
  {
  }

  /** A form freshly switched to `userInfo`, with its schema loaded. */
  method OpenUserInfo() returns (form: DynamicForm)
    ensures fresh(form)
    ensures form.formType == "userInfo" && form.formFields == UserInfo()
    ensures form.formData == map[] && form.errors == map[] && form.submittedData == map[]
    ensures form.editingIndex == None
  {
    form := new DynamicForm();
    var fetching := form.HandleFormTypeChange("userInfo");
    form.CompleteFormTypeChange(Fetch("userInfo"));
  }

  /** Submitting a `userInfo` form whose two names are filled and whose age is empty. */
  method SubmitFilledNames(form: DynamicForm, first: string, last: string, p: Parsers)
    requires form.formFields == UserInfo()
    requires form.formData == map["firstName" := first, "lastName" := last]
    requires Filled(Some(first)) && Filled(Some(last))
    modifies form
    ensures form.submittedData == Appended(old(form.submittedData), old(form.formType), old(form.formData))
    ensures form.feedbackMessage == Some(if old(form.editingIndex).Some? then SavedMessage else SubmittedMessage)
    ensures form.feedbackType == Success
    ensures form.formData == map[] && form.editingIndex == None && form.errors == map[]
    ensures form.formType == old(form.formType) && form.formFields == old(form.formFields)
  {
    NamesOnlyValid(first, last, p);
    form.HandleSubmit(p);
  }

  /** Submitting `{firstName: "", lastName: "Doe"}` is rejected for the missing first name. */
  method SubmitMissingFirstName(p: Parsers) returns (errs: Errors, records: seq<Record>, msg: Option<string>)
    ensures errs == map["firstName" := "First Name is required"]
    ensures records == []
    ensures msg == Some(InvalidSubmitMessage)
  {
    var form := OpenUserInfo();
    form.HandleInputChange("firstName", "");
    form.HandleInputChange("lastName", "Doe");
    assert form.formData == map["firstName" := "", "lastName" := "Doe"];
    NonBlankName("Doe");
    MissingFirstNameErrors("Doe", p);
    FirstNameRequiredMessage();
    form.HandleSubmit(p);
    errs, records, msg := form.errors, Records(form.submittedData, "userInfo"), form.feedbackMessage;
  }

  /** An age the host does not read as a number is the only error. */
  method SubmitBadAge(p: Parsers) returns (errs: Errors, records: seq<Record>)
    requires !p.isNumber("abc")
    ensures errs == map["age" := "Age must be a valid number"]
    ensures records == []
  {
    var form := OpenUserInfo();
    form.HandleInputChange("firstName", "Jane");
    form.HandleInputChange("lastName", "Doe");
    form.HandleInputChange("age", "abc");
    assert form.formData == map["firstName" := "Jane", "lastName" := "Doe", "age" := "abc"];
    NonBlankName("Jane");
    NonBlankName("Doe");
    BadAgeErrors("Jane", "Doe", "abc", p);
    AgeNumberMessage();
    form.HandleSubmit(p);
    errs, records := form.errors, Records(form.submittedData, "userInfo");
  }

  /** A valid first submission creates the type's list, reports it and clears the form. */
  method SubmitJaneDoe(p: Parsers) returns (form: DynamicForm)
    ensures fresh(form)
    ensures form.formType == "userInfo" && form.formFields == UserInfo()
    ensures form.submittedData == map["userInfo" := [JaneDoe]]
    ensures form.feedbackMessage == Some(SubmittedMessage) && form.feedbackType == Success
    ensures form.formData == map[] && form.editingIndex == None && form.errors == map[]
  {
    form := OpenUserInfo();
    form.HandleInputChange("firstName", "Jane");
    form.HandleInputChange("lastName", "Doe");
    assert form.formData == JaneDoe;
    NonBlankName("Jane");
    NonBlankName("Doe");
    SubmitFilledNames(form, "Jane", "Doe", p);
  }

  /** The records and message a valid first submission leaves. */
  method FirstSubmission(p: Parsers) returns (records: seq<Record>, msg: Option<string>, data: Record)
    ensures records == [JaneDoe] && msg == Some(SubmittedMessage) && data == map[]
  {
    var form := SubmitJaneDoe(p);
    records, msg, data := Records(form.submittedData, "userInfo"), form.feedbackMessage, form.formData;
  }

  /**
    Editing record 0, changing the last name and submitting appends the changed
    copy after the original, which stays at index 0; the message still speaks
    of saved changes.
   */
  method EditThenSubmit(p: Parsers) returns (records: seq<Record>, msg: Option<string>)
    ensures records == [JaneDoe, JaneSmith]
    ensures msg == Some(SavedMessage)
  {
    var form := SubmitJaneDoe(p);
    form.HandleEdit(0);
    form.HandleInputChange("lastName", "Smith");
    assert form.formData == JaneSmith;
    NonBlankName("Jane");
    NonBlankName("Smith");
    SubmitFilledNames(form, "Jane", "Smith", p);
    records, msg := Records(form.submittedData, "userInfo"), form.feedbackMessage;
  }

  /** Deleting record 0 of two shifts the second record down to index 0. */
  method DeleteFirstOfTwo(p: Parsers) returns (records: seq<Record>, msg: Option<string>)
    ensures records == [JaneSmith]
    ensures msg == Some(DeletedMessage)
  {
    var form := SubmitJaneDoe(p);
    form.HandleInputChange("firstName", "Jane");
    form.HandleInputChange("lastName", "Smith");
    assert form.formData == JaneSmith;
    NonBlankName("Jane");
    NonBlankName("Smith");
    SubmitFilledNames(form, "Jane", "Smith", p);
    assert Records(form.submittedData, "userInfo") == [JaneDoe, JaneSmith];
    form.HandleDelete(0);
    records, msg := Records(form.submittedData, "userInfo"), form.feedbackMessage;
  }

  /**
    Deleting the record being edited leaves the editing index in place, now
    past the end of the list: the next valid submit appends and reports
    "Changes saved successfully!" though no stored record was edited.
   */
  method DeleteWhileEditing(p: Parsers) returns (editing: Option<nat>, count: nat, records: seq<Record>, msg: Option<string>)
    ensures editing == Some(0) && count == 0
    ensures records == [JaneDoe]
    ensures msg == Some(SavedMessage)
  {
    var form := SubmitJaneDoe(p);
    form.HandleEdit(0);
    form.HandleDelete(0);
    editing, count := form.editingIndex, |Records(form.submittedData, "userInfo")|;
    form.HandleInputChange("firstName", "Jane");
    form.HandleInputChange("lastName", "Doe");
    assert form.formData == JaneDoe;
    NonBlankName("Jane");
    NonBlankName("Doe");
    SubmitFilledNames(form, "Jane", "Doe", p);
    records, msg := Records(form.submittedData, "userInfo"), form.feedbackMessage;
  }

  /** Switching to another form type while editing keeps the editing index and the old type's records. */
  method SwitchTypeWhileEditing(p: Parsers) returns (editing: Option<nat>, kept: seq<Record>, data: Record)
    ensures editing == Some(0)
    ensures kept == [JaneDoe]
    ensures data == map[]
  {
    var form := SubmitJaneDoe(p);
    form.HandleEdit(0);
    var fetching := form.HandleFormTypeChange("addressInfo");
    form.CompleteFormTypeChange(Fetch("addressInfo"));
    editing, kept, data := form.editingIndex, Records(form.submittedData, "userInfo"), form.formData;
  }
}
