/** The food-donation form: nine text inputs, a submit button that insists
    on five of them, and a success dialog whose OK button clears the form. */
module Donate {

  // ---------------------------------------------------------------------
  // The form's contents as a value
  // ---------------------------------------------------------------------

  /** The nine inputs, in the order the screen lays them out. */
  datatype Details = Details(
    foodName: string,
    category: string,
    quantity: string,
    expiry: string,
    description: string,
    yourName: string,
    yourEmail: string,
    contactNumber: string,
    pickupAddress: string)

  const BlankDetails := Details("", "", "", "", "", "", "", "", "")

  datatype Input = FoodName | Category | Quantity | Expiry | Description | YourName | YourEmail | ContactNumber | PickupAddress

  function Read(d: Details, input: Input): string {
    match input
    case FoodName => d.foodName
    case Category => d.category
    case Quantity => d.quantity
    case Expiry => d.expiry
    case Description => d.description
    case YourName => d.yourName
    case YourEmail => d.yourEmail
    case ContactNumber => d.contactNumber
    case PickupAddress => d.pickupAddress
  }

  /** The contents with one input's text replaced: that input reads the
      new text and every other input reads what it read before. */
  function With(d: Details, input: Input, text: string): (r: Details)
    ensures Read(r, input) == text
    ensures forall other :: other != input ==> Read(r, other) == Read(d, other)
  {
    match input
    case FoodName => d.(foodName := text)
    case Category => d.(category := text)
    case Quantity => d.(quantity := text)
    case Expiry => d.(expiry := text)
    case Description => d.(description := text)
    case YourName => d.(yourName := text)
    case YourEmail => d.(yourEmail := text)
    case ContactNumber => d.(contactNumber := text)
    case PickupAddress => d.(pickupAddress := text)
  }

  /** The five inputs the submit button insists on. */
  predicate Mandatory(input: Input) {
    input in {FoodName, Quantity, YourName, ContactNumber, PickupAddress}
  }

  /** Every mandatory input holds some text. */
  predicate MandatoryFilled(d: Details) {
    d.foodName != "" && d.quantity != "" && d.yourName != "" && d.contactNumber != "" && d.pickupAddress != ""
  }

  /** The submit check reads exactly the mandatory inputs: it passes when
      each of them is non-empty, whatever the optional ones hold. */
  lemma MandatoryFilledMeansEachMandatoryInput(d: Details)
    ensures MandatoryFilled(d) <==> forall input :: Mandatory(input) ==> Read(d, input) != ""
  {
    if !MandatoryFilled(d) {
      var missing :| missing in [FoodName, Quantity, YourName, ContactNumber, PickupAddress] && Read(d, missing) == "";
      assert Mandatory(missing);
    }
  }

  /** Category, expiry, description and e-mail never decide the submit
      check. */
  lemma OptionalInputsIrrelevant(d: Details, category: string, expiry: string, description: string, yourEmail: string)
    ensures MandatoryFilled(d.(category := category, expiry := expiry, description := description, yourEmail := yourEmail))
            == MandatoryFilled(d)
  {
  }

  // ---------------------------------------------------------------------
  // The screen
  // ---------------------------------------------------------------------

  /** What the submit button leads to: the error alert, or the thank-you
      dialog whose OK button is still to be pressed. */
  datatype SubmitOutcome = MissingMandatory | AwaitingConfirmation

  class DonateForm {
    var foodName: string
    var category: string
    var quantity: string
    var expiry: string
    var description: string
    var yourName: string
    var yourEmail: string
    var contactNumber: string
    var pickupAddress: string

    function Contents(): Details
      reads this
    {
      Details(foodName, category, quantity, expiry, description, yourName, yourEmail, contactNumber, pickupAddress)
    }

    /** Every input starts empty. */
    constructor ()
      ensures Contents() == BlankDetails
    {
      foodName, category, quantity, expiry, description := "", "", "", "", "";
      yourName, yourEmail, contactNumber, pickupAddress := "", "", "", "";
    }

    /** Typing into one input replaces its text and no other. */
    method SetInput(input: Input, text: string)
      modifies this
      ensures Contents() == With(old(Contents()), input, text)
    {
      match input
      case FoodName => foodName := text;
      case Category => category := text;
      case Quantity => quantity := text;
      case Expiry => expiry := text;
      case Description => description := text;
      case YourName => yourName := text;
      case YourEmail => yourEmail := text;
      case ContactNumber => contactNumber := text;
      case PickupAddress => pickupAddress := text;
    }

    /** The submit button: the success dialog opens exactly when the five
        mandatory inputs are filled. Either way no input changes; the form
        is cleared only by the dialog's OK button. */
    method HandleSubmit() returns (outcome: SubmitOutcome)
      ensures outcome == AwaitingConfirmation <==> MandatoryFilled(Contents())
      ensures outcome == AwaitingConfirmation <==> forall input :: Mandatory(input) ==> Read(Contents(), input) != ""
    {
      MandatoryFilledMeansEachMandatoryInput(Contents());
      if foodName == "" || quantity == "" || yourName == "" || contactNumber == "" || pickupAddress == "" {
        outcome := MissingMandatory;
      } else {
        outcome := AwaitingConfirmation;
      }
    }

    /** The OK button of the success dialog empties all nine inputs. */
    method ConfirmOk()
      modifies this
      ensures Contents() == BlankDetails
      ensures forall input :: Read(Contents(), input) == ""
    {
      foodName := "";
      category := "";
      quantity := "";
      expiry := "";
      description := "";
      yourName := "";
      yourEmail := "";
      contactNumber := "";
      pickupAddress := "";
    }
  }

  /** A donation with its mandatory inputs filled is accepted; once the
      dialog is confirmed the cleared form is refused, and the form is
      blank again. */
  method SubmitThenConfirm(food: string, quantity: string, name: string, phone: string, address: string)
    returns (first: SubmitOutcome, second: SubmitOutcome, after: Details)
    requires food != "" && quantity != "" && name != "" && phone != "" && address != ""
    ensures first == AwaitingConfirmation
    ensures second == MissingMandatory
    ensures after == BlankDetails
  {
    var form := new DonateForm();
    form.SetInput(FoodName, food);
    form.SetInput(Quantity, quantity);
    form.SetInput(YourName, name);
    form.SetInput(ContactNumber, phone);
    form.SetInput(PickupAddress, address);
    first := form.HandleSubmit();
    form.ConfirmOk();
    second := form.HandleSubmit();
    after := form.Contents();
  }

  /** A refused submit changes nothing: pressing the button with the
      quantity missing leaves every typed input in place. */
  method SubmitWithoutQuantity(food: string, name: string, phone: string, address: string, note: string)
    returns (outcome: SubmitOutcome, after: Details)
    ensures outcome == MissingMandatory
    ensures after == Details(food, "", "", "", note, name, "", phone, address)
  {
    var form := new DonateForm();
    form.SetInput(FoodName, food);
    form.SetInput(YourName, name);
    form.SetInput(ContactNumber, phone);
    form.SetInput(PickupAddress, address);
    form.SetInput(Description, note);
    outcome := form.HandleSubmit();
    after := form.Contents();
  }
}
