/** The form component: its state variables as fields, and its handlers as methods that
    update them step by step, each proved against the transition function of `Wizard`. */
module Component {
  import opened StepTable
  import opened Wizard

  class Form {
    /** The schema the form was created with. */
    const validator: Validator

    var currentStep: int
    var previousStep: int
    var isSubmitted: bool
    var submittedData: Option<Values>
    var values: Values

    /** The component's state as a value. */
    function Snapshot(): WizardState
      reads this
    {
      WizardState(currentStep, previousStep, isSubmitted, submittedData, values)
    }

    ghost predicate Valid()
      reads this
    {
      Inv(Snapshot())
    }

    /** Mounting: every state variable takes its initial value. */
    constructor (validator: Validator)
      ensures this.validator == validator
      ensures Valid() && Snapshot() == Initial
    {
      this.validator := validator;
      currentStep, previousStep := 0, 0;
      isSubmitted, submittedData := false, None;
      values := map[];
    }

    /** The submit handler: store the record, clear the inputs, mark the form submitted. */
    method ProcessForm(data: Values)
      requires Valid()
      modifies this
      ensures Valid()
      ensures submittedData == Some(data) && values == map[] && isSubmitted
      ensures currentStep == old(currentStep) && previousStep == old(previousStep)
      ensures Snapshot() == Wizard.ProcessForm(old(Snapshot()), data)
    {
      submittedData := Some(data);
      values := map[];
      isSubmitted := true;
    }

    /** The whole-form submit, also wired to the form's submit event: the handler runs only
        when the whole schema accepts the current values. */
    method HandleSubmit()
      requires Valid()
      modifies this
      ensures Valid()
      ensures Snapshot() == Wizard.HandleSubmit(old(Snapshot()), validator)
    {
      if validator.formValid(values) {
        ProcessForm(values);
      }
    }

    /** The Next handler. */
    method Next()
      requires Valid()
      modifies this
      ensures Valid()
      ensures !StepValid(validator, Steps[old(currentStep)].fields, old(values)) ==> Snapshot() == old(Snapshot())
      ensures old(currentStep) == |Steps| - 1 ==> Snapshot() == old(Snapshot())
      ensures StepValid(validator, Steps[old(currentStep)].fields, old(values)) && old(currentStep) < |Steps| - 1 ==>
        previousStep == old(currentStep) && currentStep == old(currentStep) + 1
      ensures Snapshot() == Wizard.Next(old(Snapshot()), validator)
    {
      var fields := Steps[currentStep].fields;
      var output := StepValid(validator, fields, values);
      if !output {
        return;
      }
      if currentStep < |Steps| - 1 {
        if currentStep == |Steps| - 2 {
          HandleSubmit();
        }
        previousStep := currentStep;
        currentStep := currentStep + 1;
      }
    }

    /** The Previous handler; it does not look at the submission flag. */
    method Prev()
      requires Valid()
      modifies this
      ensures Valid()
      ensures old(currentStep) == 0 ==> Snapshot() == old(Snapshot())
      ensures old(currentStep) > 0 ==> previousStep == old(currentStep) && currentStep == old(currentStep) - 1
      ensures Snapshot() == Wizard.Prev(old(Snapshot()))
    {
      if currentStep > 0 {
        previousStep := currentStep;
        currentStep := currentStep - 1;
      }
    }

    /** The document-wide keydown listener; returns whether the default action was suppressed. */
    method HandleKeydown(key: Key) returns (defaultPrevented: bool)
      requires Valid()
      modifies this
      ensures Valid()
      ensures defaultPrevented <==> old(isSubmitted) && key == ArrowLeft
      ensures old(isSubmitted) && key != ArrowRight ==> Snapshot() == old(Snapshot())
      ensures KeyOutcome(Snapshot(), defaultPrevented) == KeyDown(old(Snapshot()), key, validator)
    {
      defaultPrevented := false;
      if isSubmitted {
        if key == ArrowLeft {
          defaultPrevented := true;
          return;
        }
      }
      if key == ArrowRight {
        Next();
      }
      if key == ArrowLeft && !isSubmitted {
        Prev();
      }
    }

    /** A click on the Previous button, which does nothing while the button is disabled. */
    method ClickPrev()
      requires Valid()
      modifies this
      ensures Valid()
      ensures old(isSubmitted) ==> Snapshot() == old(Snapshot())
      ensures Snapshot() == Wizard.ClickPrev(old(Snapshot()))
    {
      if !(currentStep == 0 || isSubmitted) {
        Prev();
      }
    }

    /** A click on the Next button, which does nothing while the button is disabled. */
    method ClickNext()
      requires Valid()
      modifies this
      ensures Valid()
      ensures old(isSubmitted) ==> Snapshot() == old(Snapshot())
      ensures Snapshot() == Wizard.ClickNext(old(Snapshot()), validator)
    {
      if !(currentStep == |Steps| - 1 || isSubmitted) {
        Next();
      }
    }

    /** Text typed into the input bound to `f`; only the shown step's inputs exist. */
    method Input(f: FieldName, text: string)
      requires Valid()
      modifies this
      ensures Valid()
      ensures Snapshot() == Wizard.Input(old(Snapshot()), f, text)
    {
      if f in Steps[currentStep].fields {
        values := values[f := text];
      }
    }
  }
}
