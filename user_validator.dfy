/** The profile, address and payment-method validators
    (src/validators/userValidator.js). */
module UserValidator {
  import opened Wrappers
  import Text
  import opened Validation

  datatype ProfileBody = ProfileBody(firstName: Option<Json>, lastName: Option<Json>, phone: Option<Json>)

  datatype AddressBody = AddressBody(
    name: Option<Json>, address: Option<Json>, city: Option<Json>,
    zipCode: Option<Json>, isDefault: Option<Json>)

  datatype PaymentMethodBody = PaymentMethodBody(methodType: Option<Json>, details: Option<Json>, isDefault: Option<Json>)

  /** `validateProfileUpdate`: every field is optional, but a name that is sent must
      have 2 to 50 characters after trimming. */
  function ProfileErrors(b: ProfileBody): (r: seq<string>)
    ensures b.firstName.None? && b.lastName.None? && b.phone.None? ==> r == []
  {
    Optional(b.firstName, Check(LengthIn(Trimmed(b.firstName), 2, 50), "First name must be between 2 and 50 characters")) +
    Optional(b.lastName, Check(LengthIn(Trimmed(b.lastName), 2, 50), "Last name must be between 2 and 50 characters")) +
    PhoneErrors(b.phone)
  }

  lemma ProfileAcceptsIff(b: ProfileBody)
    ensures Validate(ProfileErrors(b)).Success? <==>
      (b.firstName.None? || 2 <= |Trimmed(b.firstName)| <= 50) &&
      (b.lastName.None? || 2 <= |Trimmed(b.lastName)| <= 50) &&
      (b.phone.None? || ValidPhone(Trimmed(b.phone)))
  {
    PhonePatternIff(Trimmed(b.phone));
    NoErrorsIff(
      Optional(b.firstName, Check(LengthIn(Trimmed(b.firstName), 2, 50), "First name must be between 2 and 50 characters")),
      Optional(b.lastName, Check(LengthIn(Trimmed(b.lastName), 2, 50), "Last name must be between 2 and 50 characters")),
      PhoneErrors(b.phone), [], []);
    assert ProfileErrors(b) + [] + [] == ProfileErrors(b);
  }

  /** `^[0-9]{5,10}$`. */
  predicate ZipPattern(t: string) {
    5 <= |t| <= 10 && Text.All(t, Text.IsDigit)
  }

  function ZipErrors(v: Option<Json>): (r: seq<string>)
    ensures r == [] <==> Trimmed(v) != "" && ZipPattern(Trimmed(v))
  {
    var t := Trimmed(v);
    Check(t != "", "Zip code is required") + Check(ZipPattern(t), "Please provide a valid zip code")
  }

  /** `body("isDefault").optional().isBoolean()`; the value is not trimmed. */
  function IsDefaultErrors(v: Option<Json>): (r: seq<string>)
    ensures r == [] <==> v.None? || IsBooleanText(TextOf(v))
  {
    Optional(v, Check(IsBooleanText(TextOf(v)), "isDefault must be a boolean value"))
  }

  /** `validateAddress`. */
  function AddressErrors(b: AddressBody): (r: seq<string>)
    ensures b.name.None? ==> r != [] && r[0] == "Address name is required"
  {
    RequiredText(b.name, 2, 100, "Address name is required", "Address name must be between 2 and 100 characters") +
    RequiredText(b.address, 5, 255, "Address is required", "Address must be between 5 and 255 characters") +
    RequiredText(b.city, 2, 100, "City is required", "City must be between 2 and 100 characters") +
    ZipErrors(b.zipCode) +
    IsDefaultErrors(b.isDefault)
  }

  /** An address passes exactly when the trimmed name has 2 to 100 characters, the
      street 5 to 255, the city 2 to 100, the zip code is 5 to 10 digits and `isDefault`,
      if sent, reads as a boolean. */
  lemma AddressAcceptsIff(b: AddressBody)
    ensures Validate(AddressErrors(b)).Success? <==>
      2 <= |Trimmed(b.name)| <= 100 && 5 <= |Trimmed(b.address)| <= 255 &&
      2 <= |Trimmed(b.city)| <= 100 &&
      5 <= |Trimmed(b.zipCode)| <= 10 &&
      (forall i :: 0 <= i < |Trimmed(b.zipCode)| ==> Text.IsDigit(Trimmed(b.zipCode)[i])) &&
      (b.isDefault.None? || TextOf(b.isDefault) in {"true", "false", "1", "0"})
  {
    Text.AllIff(Trimmed(b.zipCode), Text.IsDigit);
    NoErrorsIff(
      RequiredText(b.name, 2, 100, "Address name is required", "Address name must be between 2 and 100 characters"),
      RequiredText(b.address, 5, 255, "Address is required", "Address must be between 5 and 255 characters"),
      RequiredText(b.city, 2, 100, "City is required", "City must be between 2 and 100 characters"),
      ZipErrors(b.zipCode),
      IsDefaultErrors(b.isDefault));
  }

  /** The payment method types `isIn` accepts. */
  const PaymentMethodTypes: seq<string> := ["CREDIT_CARD", "BANK_TRANSFER", "E_WALLET"]

  /** `typeof value === "object" && value !== null`: an object or an array. */
  predicate IsObjectValue(v: Option<Json>) {
    v.Some? && (v.value.JObject? || v.value.JArray?)
  }

  /** `validatePaymentMethod`; the custom check on `details` runs even when
      `notEmpty` has already failed, and its thrown message is the error message. */
  function PaymentMethodErrors(b: PaymentMethodBody): (r: seq<string>)
    ensures b.details.None? ==> "Payment details are required" in r && "Payment details must be an object" in r
  {
    var t := Trimmed(b.methodType);
    Check(t != "", "Payment method type is required") +
    Check(t in PaymentMethodTypes, "Invalid payment method type") +
    Check(TextOf(b.details) != "", "Payment details are required") +
    Check(IsObjectValue(b.details), "Payment details must be an object") +
    IsDefaultErrors(b.isDefault)
  }

  /** A payment method passes exactly when its trimmed type is one of the three
      names, its details are a non-empty object, and `isDefault`, if sent, reads as a
      boolean. */
  lemma PaymentMethodAcceptsIff(b: PaymentMethodBody)
    ensures Validate(PaymentMethodErrors(b)).Success? <==>
      (Trimmed(b.methodType) == "CREDIT_CARD" || Trimmed(b.methodType) == "BANK_TRANSFER" ||
       Trimmed(b.methodType) == "E_WALLET") &&
      b.details == Some(JObject) &&
      (b.isDefault.None? || IsBooleanText(TextOf(b.isDefault)))
  {
    var t := Trimmed(b.methodType);
    NoErrorsIff(
      Check(t != "", "Payment method type is required"),
      Check(t in PaymentMethodTypes, "Invalid payment method type"),
      Check(TextOf(b.details) != "", "Payment details are required"),
      Check(IsObjectValue(b.details), "Payment details must be an object"),
      IsDefaultErrors(b.isDefault));
  }
}
