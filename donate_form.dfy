/**
 * The public donation wizard: four steps (amount, details, payment, thank-you)
 * walked with Continue and Back buttons, a choice of preset amounts or a
 * digits-only custom amount, and a one-time / monthly toggle. The four pieces
 * of component state are the fields of `DonateForm`; each handler is a method.
 */
module DonateForm {
  import opened Js

  /** The wizard's steps, in order. */
  const StepNames: seq<string> := ["Amount", "Your Details", "Payment", "Thank You"]

  /** The preset amount buttons. */
  const DonationAmounts: seq<nat> := [25, 50, 100, 250]

  /** The step Continue moves to: one further, but never past the last. */
  function NextStep(step: int): int {
    if step + 1 < |StepNames| then step + 1 else |StepNames|
  }

  /** The step Back moves to: one earlier, but never before the first. */
  function PrevStep(step: int): int {
    if step - 1 > 1 then step - 1 else 1
  }

  /** Continue and Back keep the step inside 1..4; Continue stands still only on
      the thank-you step and Back only on the first, and away from those ends
      each undoes the other. */
  lemma StepMoves(step: int)
    requires 1 <= step <= |StepNames|
    ensures 1 <= NextStep(step) <= |StepNames| && 1 <= PrevStep(step) <= |StepNames|
    ensures NextStep(step) == step <==> step == |StepNames|
    ensures PrevStep(step) == step <==> step == 1
    ensures step < |StepNames| ==> NextStep(step) == step + 1 && PrevStep(NextStep(step)) == step
    ensures step > 1 ==> PrevStep(step) == step - 1 && NextStep(PrevStep(step)) == step
  {
  }

  /** Three presses of Continue take the wizard from any step to the thank-you
      step, and three presses of Back from any step to the first. */
  lemma ThreePressesReachEnds(step: int)
    requires 1 <= step <= |StepNames|
    ensures NextStep(NextStep(NextStep(step))) == |StepNames|
    ensures PrevStep(PrevStep(PrevStep(step))) == 1
  {
  }

  class DonateForm {
    var currentStep: int
    var amount: nat
    var customAmount: string
    var isRecurring: bool

    /** The step is one of the four, the custom amount is a digit string, and
        a non-empty custom amount is the amount donated. */
    predicate Valid()
      reads this
    {
      && 1 <= currentStep <= |StepNames|
      && AllDigits(customAmount)
      && (customAmount != "" ==> amount == DecimalValue(customAmount))
    }

    /** The initial state: first step, 50 selected, no custom amount, one-time. */
    constructor ()
      ensures Valid()
      ensures currentStep == 1 && amount == 50 && customAmount == "" && !isRecurring
      ensures IsHighlighted(50)
    {
      currentStep := 1;
      amount := 50;
      customAmount := "";
      isRecurring := false;
    }

    /** `handleNext`. */
    method HandleNext()
      requires Valid()
      modifies this
      ensures Valid()
      ensures currentStep == NextStep(old(currentStep))
      ensures amount == old(amount) && customAmount == old(customAmount) && isRecurring == old(isRecurring)
    {
      currentStep := NextStep(currentStep);
    }

    /** `handlePrev`. */
    method HandlePrev()
      requires Valid()
      modifies this
      ensures Valid()
      ensures currentStep == PrevStep(old(currentStep))
      ensures amount == old(amount) && customAmount == old(customAmount) && isRecurring == old(isRecurring)
    {
      currentStep := PrevStep(currentStep);
    }

    /** `handleAmountSelect`: a preset replaces the amount and clears the custom
        field, so that preset, and no other, is shown selected. */
    method HandleAmountSelect(selectedAmount: nat)
      requires Valid()
      modifies this
      ensures Valid()
      ensures amount == selectedAmount && customAmount == ""
      ensures currentStep == old(currentStep) && isRecurring == old(isRecurring)
      ensures forall v :: IsHighlighted(v) <==> v == selectedAmount
    {
      amount := selectedAmount;
      customAmount := "";
    }

    /** `handleCustomAmountChange`: an input made only of digits (the empty one
        included) becomes the custom amount and its number the amount; any other
        input is ignored. */
    method HandleCustomAmountChange(value: string) returns (accepted: bool)
      requires Valid()
      modifies this
      ensures Valid()
      ensures accepted <==> AllDigits(value)
      ensures accepted ==> customAmount == value && amount == DecimalValue(value)
      ensures !accepted ==> customAmount == old(customAmount) && amount == old(amount)
      ensures currentStep == old(currentStep) && isRecurring == old(isRecurring)
      ensures accepted && value != "" ==> forall v :: !IsHighlighted(v)
    {
      accepted := AllDigits(value);
      if accepted {
        customAmount := value;
        amount := DecimalValue(value);
      }
    }

    /** The frequency radio group: monthly exactly when "monthly" was picked. */
    method HandleFrequencyChange(val: string)
      requires Valid()
      modifies this
      ensures Valid()
      ensures isRecurring <==> val == "monthly"
      ensures currentStep == old(currentStep) && amount == old(amount) && customAmount == old(customAmount)
    {
      isRecurring := val == "monthly";
    }

    /** "Make Another Donation": back to the first step; the amount, custom
        amount and frequency chosen before are kept. */
    method RestartDonation()
      requires Valid()
      modifies this
      ensures Valid()
      ensures currentStep == 1
      ensures amount == old(amount) && customAmount == old(customAmount) && isRecurring == old(isRecurring)
    {
      currentStep := 1;
    }

    /** `progress`: the share of the steps reached, as a percentage. */
    function Progress(): (p: real)
      reads this
      ensures p == 25.0 * currentStep as real
      ensures Valid() ==> 0.0 < p <= 100.0 && (p == 100.0 <==> currentStep == |StepNames|)
    {
      (currentStep as real / |StepNames| as real) * 100.0
    }

    /** The confirm button on the payment step names the amount as
        `String(amount)`. */
    function ConfirmLabel(): string
      reads this
    {
      "Confirm Donation of $" + NatToString(amount)
    }

    /** The progress bar is drawn on every step except the thank-you step. */
    predicate ShowsProgressBar()
      reads this
    {
      currentStep < |StepNames|
    }

    /** A preset button is drawn selected when it is the amount and no custom
        amount has been typed. */
    predicate IsHighlighted(v: nat)
      reads this
    {
      amount == v && customAmount == ""
    }
  }

  /** At most one preset is shown selected, and none while a custom amount is
      typed. */
  lemma AtMostOneHighlighted(f: DonateForm, v: nat, w: nat)
    requires f.IsHighlighted(v) && f.IsHighlighted(w)
    ensures v == w && f.customAmount == "" && f.amount == v
  {
  }

  /** The bar is shown exactly on the steps before the last, where it stands
      below 100 percent. */
  lemma ProgressBarBelowFull(f: DonateForm)
    requires f.Valid()
    ensures f.ShowsProgressBar() <==> f.Progress() < 100.0
  {
  }

  /** The confirm button shows the amount that will be donated: the figure
      after the `$` is a plain numeral (no leading zeros) that reads back as the
      amount, so a custom amount typed with leading zeros is confirmed without
      them. */
  lemma ConfirmShowsAmount(f: DonateForm)
    ensures var shown := f.ConfirmLabel();
      var prefix := "Confirm Donation of $";
      && prefix <= shown
      && AllDigits(shown[|prefix|..])
      && DecimalValue(shown[|prefix|..]) == f.amount
      && (|shown| > |prefix| + 1 ==> shown[|prefix|] != '0')
  {
    var prefix := "Confirm Donation of $";
    assert f.ConfirmLabel()[|prefix|..] == NatToString(f.amount);
    DecimalValueOfNatToString(f.amount);
    NatToStringNoLeadingZero(f.amount);
  }
}
