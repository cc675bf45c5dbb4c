/** The sign-up screen: a form record edited one field at a time, a choice
    between a donator and a trust account, two password-visibility toggles,
    and a validator that checks the form in a fixed order and reports the
    first failure. */
module SignUp {
  import opened UserTypes

  // ---------------------------------------------------------------------
  // The form record
  // ---------------------------------------------------------------------

  datatype FormData = FormData(
    name: string,
    email: string,
    phone: string,
    password: string,
    confirmPassword: string,
    organization: string,
    address: string,
    registrationNumber: string)

  const EmptyForm := FormData("", "", "", "", "", "", "", "")

  /** The keys of the form record. */
  datatype Field = Name | Email | Phone | Password | ConfirmPassword | Organization | Address | RegistrationNumber

  function Get(form: FormData, field: Field): string {
    match field
    case Name => form.name
    case Email => form.email
    case Phone => form.phone
    case Password => form.password
    case ConfirmPassword => form.confirmPassword
    case Organization => form.organization
    case Address => form.address
    case RegistrationNumber => form.registrationNumber
  }

  /** The record spread with one key overwritten: `field` reads `value`
      afterwards and every other field reads what it read before. */
  function WithField(form: FormData, field: Field, value: string): (r: FormData)
    ensures Get(r, field) == value
    ensures forall g :: g != field ==> Get(r, g) == Get(form, g)
  {
    match field
    case Name => form.(name := value)
    case Email => form.(email := value)
    case Phone => form.(phone := value)
    case Password => form.(password := value)
    case ConfirmPassword => form.(confirmPassword := value)
    case Organization => form.(organization := value)
    case Address => form.(address := value)
    case RegistrationNumber => form.(registrationNumber := value)
  }

  /** Writing a field twice keeps only the second write, and writing back
      what a field already holds changes nothing. */
  lemma WithFieldOverwrites(form: FormData, field: Field, a: string, b: string)
    ensures WithField(WithField(form, field, a), field, b) == WithField(form, field, b)
    ensures WithField(form, field, Get(form, field)) == form
  {
  }

  // ---------------------------------------------------------------------
  // Validation
  // ---------------------------------------------------------------------

  /** The reasons the validator gives, in the order it checks them. */
  datatype Failure = MissingRequired | PasswordMismatch | PasswordTooShort | MissingOrganization

  datatype Verdict = Pass | Fail(failure: Failure)

  const MinPasswordLength := 6

  /** The alert shown for each failure; each failure has its own text. */
  function AlertText(f: Failure): (r: string)
    ensures r != ""
  {
    match f
    case MissingRequired => "Please fill in all required fields"
    case PasswordMismatch => "Passwords do not match"
    case PasswordTooShort => "Password must be at least 6 characters"
    case MissingOrganization => "Please fill in organization details"
  }

  /** The alert text tells the failures apart. */
  lemma AlertTextIdentifiesFailure(f: Failure, g: Failure)
    ensures AlertText(f) == AlertText(g) <==> f == g
  {
  }

  predicate RequiredPresent(form: FormData) {
    form.name != "" && form.email != "" && form.phone != "" && form.password != ""
  }

  /** What an acceptable registration is, stated as one conjunction: the
      four required fields are filled, the password is confirmed and long
      enough, and a trust names its organisation and registration number. */
  predicate Acceptable(form: FormData, userType: string) {
    && RequiredPresent(form)
    && form.password == form.confirmPassword
    && |form.password| >= MinPasswordLength
    && (userType == Trust ==> form.organization != "" && form.registrationNumber != "")
  }

  /** The validator's early-return chain: the first check that fails decides
      the alert, and the form passes exactly when it is acceptable. */
  function ValidateForm(form: FormData, userType: string): (r: Verdict)
    ensures r == Pass <==> Acceptable(form, userType)
  {
    if form.name == "" || form.email == "" || form.phone == "" || form.password == "" then
      Fail(MissingRequired)
    else if form.password != form.confirmPassword then
      Fail(PasswordMismatch)
    else if |form.password| < MinPasswordLength then
      Fail(PasswordTooShort)
    else if userType == Trust && (form.organization == "" || form.registrationNumber == "") then
      Fail(MissingOrganization)
    else
      Pass
  }

  /** A missing required field is reported first, whatever else is wrong
      with the form and whatever the account type. */
  lemma MissingRequiredComesFirst(form: FormData, userType: string)
    ensures ValidateForm(form, userType) == Fail(MissingRequired) <==> !RequiredPresent(form)
  {
  }

  /** With the required fields filled, a mismatch is reported ahead of the
      length check, even for a password that is also too short. */
  lemma MismatchBeforeLength(form: FormData, userType: string)
    ensures ValidateForm(form, userType) == Fail(PasswordMismatch)
            <==> RequiredPresent(form) && form.password != form.confirmPassword
  {
  }

  /** The length check fails below six characters and a confirmed
      password of exactly six characters gets past it. */
  lemma PasswordLengthBoundary(form: FormData, userType: string)
    requires RequiredPresent(form) && form.password == form.confirmPassword
    ensures |form.password| < 6 ==> ValidateForm(form, userType) == Fail(PasswordTooShort)
    ensures |form.password| == 6 ==> ValidateForm(form, userType) != Fail(PasswordTooShort)
    ensures |form.password| == 6 && userType != Trust ==> ValidateForm(form, userType) == Pass
  {
  }

  /** The organisation fields are checked for a trust only: for any other
      account type the validator neither reads them nor fails on them. */
  lemma OrganizationOnlyForTrust(form: FormData, userType: string, org: string, reg: string)
    requires userType != Trust
    ensures ValidateForm(form, userType) != Fail(MissingOrganization)
    ensures ValidateForm(form.(organization := org, registrationNumber := reg), userType)
            == ValidateForm(form, userType)
    ensures ValidateForm(form, userType) == ValidateForm(form, Donator)
  {
  }

  /** A trust that passes the first three checks fails exactly when its
      organisation name or registration number is missing. */
  lemma TrustNeedsOrganization(form: FormData)
    requires RequiredPresent(form) && form.password == form.confirmPassword && |form.password| >= 6
    ensures ValidateForm(form, Trust) == Fail(MissingOrganization)
            <==> form.organization == "" || form.registrationNumber == ""
  {
  }

  /** The address is collected but never validated. */
  lemma AddressNeverChecked(form: FormData, userType: string, address: string)
    ensures ValidateForm(form.(address := address), userType) == ValidateForm(form, userType)
  {
  }

  /** The blank form is refused for the missing required fields. */
  lemma EmptyFormRejected(userType: string)
    ensures ValidateForm(EmptyForm, userType) == Fail(MissingRequired)
  {
  }

  // ---------------------------------------------------------------------
  // The screen
  // ---------------------------------------------------------------------

  /** What pressing "Create Account" leads to: the alert of the first
      failed check, or the sign-up attempt with the account type and form. */
  datatype SignUpOutcome = Alerted(failure: Failure, message: string) | Attempted(userType: string, form: FormData)

  class SignUpScreen {
    var userType: string
    var formData: FormData
    var showPassword: bool
    var showConfirmPassword: bool

    ghost predicate Valid()
      reads this
    {
      IsUserType(userType)
    }

    /** A donator account, a blank form and both passwords hidden. */
    constructor ()
      ensures Valid()
      ensures userType == Donator && formData == EmptyForm
      ensures !showPassword && !showConfirmPassword
    {
      userType := Donator;
      formData := EmptyForm;
      showPassword := false;
      showConfirmPassword := false;
    }

    /** Typing into one input overwrites that field of the form alone. */
    method HandleInputChange(field: Field, value: string)
      requires Valid()
      modifies this
      ensures Valid()
      ensures formData == WithField(old(formData), field, value)
      ensures userType == old(userType)
      ensures showPassword == old(showPassword) && showConfirmPassword == old(showConfirmPassword)
    {
      formData := WithField(formData, field, value);
    }

    /** The two selector buttons store one of the two account types. */
    method SetUserType(t: string)
      requires Valid() && IsUserType(t)
      modifies this
      ensures Valid()
      ensures userType == t
      ensures formData == old(formData)
      ensures showPassword == old(showPassword) && showConfirmPassword == old(showConfirmPassword)
    {
      userType := t;
    }

    /** The eye icon of the password input flips the password's visibility;
        the one of the confirmation input flips the confirmation's. */
    method ToggleVisibility(field: Field)
      requires Valid()
      modifies this
      ensures Valid()
      ensures field == Password ==> showPassword == !old(showPassword) && showConfirmPassword == old(showConfirmPassword)
      ensures field != Password ==> showConfirmPassword == !old(showConfirmPassword) && showPassword == old(showPassword)
      ensures userType == old(userType) && formData == old(formData)
    {
      if field == Password {
        showPassword := !showPassword;
      } else {
        showConfirmPassword := !showConfirmPassword;
      }
    }

    /** Sign-up goes ahead, with the current account type and form, exactly
        when the form is acceptable; otherwise the first failed check is
        alerted. The screen's state is left as it was. */
    method HandleSignUp() returns (outcome: SignUpOutcome)
      ensures outcome.Attempted? <==> Acceptable(formData, userType)
      ensures outcome.Attempted? ==> outcome == Attempted(userType, formData)
      ensures outcome.Alerted? ==> ValidateForm(formData, userType) == Fail(outcome.failure)
      ensures outcome.Alerted? ==> outcome.message == AlertText(outcome.failure)
    {
      var verdict := ValidateForm(formData, userType);
      if verdict.Pass? {
        outcome := Attempted(userType, formData);
      } else {
        outcome := Alerted(verdict.failure, AlertText(verdict.failure));
      }
    }
  }

  /** A trust that fills in the personal and security fields but leaves
      the organisation details blank is stopped by the organisation check;
      switching the same form to a donator account lets it through. */
  method TrustWithoutOrganization(name: string, email: string, phone: string, password: string)
    returns (asTrust: SignUpOutcome, asDonator: SignUpOutcome)
    requires name != "" && email != "" && phone != "" && |password| >= 6
    ensures asTrust == Alerted(MissingOrganization, AlertText(MissingOrganization))
    ensures asDonator.Attempted? && asDonator.userType == Donator
  {
    var screen := new SignUpScreen();
    screen.HandleInputChange(Name, name);
    screen.HandleInputChange(Email, email);
    screen.HandleInputChange(Phone, phone);
    screen.HandleInputChange(Password, password);
    screen.HandleInputChange(ConfirmPassword, password);
    screen.SetUserType(Trust);
    asTrust := screen.HandleSignUp();
    screen.SetUserType(Donator);
    asDonator := screen.HandleSignUp();
  }
}
