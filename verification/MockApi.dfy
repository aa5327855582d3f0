/**
  The schema source the form asks on a change of form type. It answers after a
  delay; what the form sees in the end is either a field list or a failure.
  The built-in source knows three form types; for any other type it resolves to
  `undefined`, and reading `.fields` of that throws inside the form's `try`,
  which the form treats as a failure.
 */
module MockApi {
  import opened FormModel

  datatype FetchOutcome = Loaded(fields: seq<FieldSchema>) | Failed

  /** The built-in schemas; each is non-empty, names its fields uniquely and gives options only to dropdowns. */
  function UserInfo(): (r: seq<FieldSchema>)
    ensures r != [] && UniqueNames(r) && OptionsOnlyForDropdowns(r)
  {
    [ FieldSchema("firstName", Text, "First Name", true, []),
      FieldSchema("lastName", Text, "Last Name", true, []),
      FieldSchema("age", Number, "Age", false, []) ]
  }

  function AddressInfo(): (r: seq<FieldSchema>)
    ensures r != [] && UniqueNames(r) && OptionsOnlyForDropdowns(r)
  {
    [ FieldSchema("street", Text, "Street", true, []),
      FieldSchema("city", Text, "City", true, []),
      FieldSchema("state", Dropdown, "State", true, ["California", "Texas", "New York"]),
      FieldSchema("zipCode", Text, "Zip Code", false, []) ]
  }

  function PaymentInfo(): (r: seq<FieldSchema>)
    ensures r != [] && UniqueNames(r) && OptionsOnlyForDropdowns(r)
  {
    [ FieldSchema("cardNumber", Text, "Card Number", true, []),
      FieldSchema("expiryDate", Date, "Expiry Date", true, []),
      FieldSchema("cvv", Password, "CVV", true, []),
      FieldSchema("cardholderName", Text, "Cardholder Name", true, []) ]
  }

  /** What `await mockApi(type)` followed by `.fields` yields for `formType`. */
  function Fetch(formType: string): (r: FetchOutcome)
    ensures r.Loaded? <==> formType in {"userInfo", "addressInfo", "paymentInfo"}
    ensures r.Loaded? ==> UniqueNames(r.fields) && OptionsOnlyForDropdowns(r.fields) && |r.fields| > 0
  {
    match formType
    case "userInfo" => Loaded(UserInfo())
    case "addressInfo" => Loaded(AddressInfo())
    case "paymentInfo" => Loaded(PaymentInfo())
    case _ => Failed
  }
}
