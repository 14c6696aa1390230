/** The step wizard's state and its transitions, as functions of the old state.
    These are the specifications the component's methods are proved against. */
module Wizard {
  import opened StepTable

  datatype Option<T> = None | Some(value: T)

  /** The form's current field values; a field with no entry has never been filled in. */
  type Values = map<FieldName, string>

  /** The validation schema, left uninterpreted: whether one field passes, given all the
      values (a schema may relate fields), and whether the whole record passes. */
  datatype Validator = Validator(fieldValid: (FieldName, Values) -> bool, formValid: Values -> bool)

  /** The component's state: the step shown, the step shown before it, whether the record
      was captured, the captured record, and the live field values. */
  datatype WizardState = WizardState(
    currentStep: int,
    previousStep: int,
    isSubmitted: bool,
    submittedData: Option<Values>,
    values: Values)

  /** The state on mount: step 0, nothing captured, no field filled in. */
  const Initial: WizardState := WizardState(0, 0, false, None, map[])

  /** What every reachable state satisfies: both indices name a step, they are at most one
      apart, and a record is held exactly when the form counts as submitted. */
  predicate Inv(s: WizardState)
  {
    && 0 <= s.currentStep < |Steps|
    && 0 <= s.previousStep < |Steps|
    && -1 <= s.currentStep - s.previousStep <= 1
    && s.isSubmitted == s.submittedData.Some?
  }

  lemma InitialIsValid()
    ensures Inv(Initial) && !Initial.isSubmitted
  {
  }

  /** The direction of the last transition, read by the entry animation. */
  function Delta(s: WizardState): (d: int)
    requires Inv(s)
    ensures -1 <= d <= 1
    ensures d == 0 <==> s.currentStep == s.previousStep
  {
    s.currentStep - s.previousStep
  }

  /** The verdict of validating a list of fields: no listed field has an error. An empty
      list always passes. */
  predicate StepValid(val: Validator, fields: seq<FieldName>, values: Values)
  {
    forall f :: f in fields ==> val.fieldValid(f, values)
  }

  /** Steps without fields pass validation whatever the schema and the values. */
  lemma FieldlessStepsAlwaysPass(val: Validator, values: Values, i: int)
    requires 0 <= i < |Steps| && Steps[i].fields == []
    ensures StepValid(val, Steps[i].fields, values)
  {
  }

  /** Capturing the record: store it, clear the live values, mark the form submitted;
      the step indices stay where they are. */
  function ProcessForm(s: WizardState, data: Values): (t: WizardState)
    ensures t.isSubmitted && t.submittedData == Some(data) && t.values == map[]
    ensures t.currentStep == s.currentStep && t.previousStep == s.previousStep
    ensures Inv(s) ==> Inv(t)
  {
    s.(submittedData := Some(data), values := map[], isSubmitted := true)
  }

  /** The whole-form submit: the record is captured only if the whole schema passes;
      otherwise nothing in the modelled state changes. */
  function HandleSubmit(s: WizardState, val: Validator): (t: WizardState)
    ensures val.formValid(s.values) ==> t == ProcessForm(s, s.values)
    ensures !val.formValid(s.values) ==> t == s
    ensures Inv(s) ==> Inv(t)
  {
    if val.formValid(s.values) then ProcessForm(s, s.values) else s
  }

  /** Advancing. Fails silently on invalid fields, is a no-op on the last step, submits the
      whole form when leaving the second-to-last step, and otherwise moves forward by one. */
  function Next(s: WizardState, val: Validator): (t: WizardState)
    requires Inv(s)
    ensures Inv(t)
    ensures !StepValid(val, Steps[s.currentStep].fields, s.values) ==> t == s
    ensures s.currentStep == |Steps| - 1 ==> t == s
    ensures StepValid(val, Steps[s.currentStep].fields, s.values) && s.currentStep < |Steps| - 1 ==>
      t.previousStep == s.currentStep && t.currentStep == s.currentStep + 1 && Delta(t) == 1
    ensures s.currentStep != |Steps| - 2 ==>
      t.isSubmitted == s.isSubmitted && t.submittedData == s.submittedData && t.values == s.values
    ensures s.currentStep == |Steps| - 2 ==>
      && t.previousStep == |Steps| - 2 && t.currentStep == |Steps| - 1
      && t.isSubmitted == (s.isSubmitted || val.formValid(s.values))
      && (val.formValid(s.values) ==> t.submittedData == Some(s.values) && t.values == map[])
      && (!val.formValid(s.values) ==> t.submittedData == s.submittedData && t.values == s.values)
  {
    if !StepValid(val, Steps[s.currentStep].fields, s.values) then s
    else if s.currentStep < |Steps| - 1 then
      var submitted := if s.currentStep == |Steps| - 2 then HandleSubmit(s, val) else s;
      submitted.(previousStep := s.currentStep, currentStep := submitted.currentStep + 1)
    else s
  }

  /** Going back: a no-op on step 0, otherwise one step back; the submission flag is not
      consulted here. */
  function Prev(s: WizardState): (t: WizardState)
    requires Inv(s)
    ensures Inv(t)
    ensures s.currentStep == 0 ==> t == s
    ensures s.currentStep > 0 ==>
      && t.previousStep == s.currentStep && t.currentStep == s.currentStep - 1 && Delta(t) == -1
      && t.isSubmitted == s.isSubmitted && t.submittedData == s.submittedData && t.values == s.values
  {
    if s.currentStep > 0 then s.(previousStep := s.currentStep, currentStep := s.currentStep - 1)
    else s
  }

  /** The keys the keyboard handler tells apart. */
  datatype Key = ArrowLeft | ArrowRight | OtherKey

  /** The state after a key press, and whether the key's default action was suppressed. */
  datatype KeyOutcome = KeyOutcome(state: WizardState, defaultPrevented: bool)

  /** The document-wide key handler: after submission ArrowLeft is swallowed; ArrowRight
      always advances; ArrowLeft goes back only before submission; other keys do nothing. */
  function KeyDown(s: WizardState, key: Key, val: Validator): (r: KeyOutcome)
    requires Inv(s)
    ensures Inv(r.state)
    ensures r.defaultPrevented <==> s.isSubmitted && key == ArrowLeft
    ensures key == ArrowLeft && s.isSubmitted ==> r.state == s
    ensures key == ArrowLeft && !s.isSubmitted ==> r.state == Prev(s)
    ensures key == ArrowRight ==> r.state == Next(s, val)
    ensures key == OtherKey ==> r.state == s
  {
    if s.isSubmitted && key == ArrowLeft then KeyOutcome(s, true)
    else
      var afterRight := if key == ArrowRight then Next(s, val) else s;
      var afterLeft := if key == ArrowLeft && !s.isSubmitted then Prev(afterRight) else afterRight;
      KeyOutcome(afterLeft, false)
  }

  /** The Previous button's disabled rule. */
  predicate PrevDisabled(s: WizardState)
  {
    s.currentStep == 0 || s.isSubmitted
  }

  /** The Next button's disabled rule. */
  predicate NextDisabled(s: WizardState)
  {
    s.currentStep == |Steps| - 1 || s.isSubmitted
  }

  /** A click on Previous. Its effect is exactly `Prev` before submission and nothing after:
      the step-0 half of the disabled rule only repeats `Prev`'s own guard. */
  function ClickPrev(s: WizardState): (t: WizardState)
    requires Inv(s)
    ensures Inv(t)
    ensures s.isSubmitted ==> t == s
    ensures !s.isSubmitted ==> t == Prev(s)
  {
    if PrevDisabled(s) then s else Prev(s)
  }

  /** A click on Next. Its effect is exactly `Next` before submission and nothing after:
      the last-step half of the disabled rule only repeats `Next`'s own guard. */
  function ClickNext(s: WizardState, val: Validator): (t: WizardState)
    requires Inv(s)
    ensures Inv(t)
    ensures s.isSubmitted ==> t == s
    ensures !s.isSubmitted ==> t == Next(s, val)
  {
    if NextDisabled(s) then s else Next(s, val)
  }

  /** Typing into an input. Only the inputs of the step shown are rendered, so text can reach
      a field only while its step is current; nothing but that field's value changes. */
  function Input(s: WizardState, f: FieldName, text: string): (t: WizardState)
    requires Inv(s)
    ensures Inv(t)
    ensures f in Steps[s.currentStep].fields ==> t == s.(values := s.values[f := text])
    ensures f !in Steps[s.currentStep].fields ==> t == s
  {
    if f in Steps[s.currentStep].fields then s.(values := s.values[f := text]) else s
  }

  /** A valid first step advances to (1, 0, not submitted), keeping the entered values. */
  lemma PersonalInformationScenario(val: Validator)
    requires forall f :: f in Steps[0].fields ==> val.fieldValid(f, map[FirstName := "Ada", LastName := "Lovelace", Email := "ada@x.com"])
    ensures
      var s := Initial.(values := map[FirstName := "Ada", LastName := "Lovelace", Email := "ada@x.com"]);
      Next(s, val) == WizardState(1, 0, false, None, s.values)
  {
  }

  /** From the preferences step, a valid record is captured on the way to the review step
      (3, 2, submitted); after that ArrowLeft is swallowed and changes nothing. */
  lemma ReviewScenario(val: Validator, values: Values)
    requires val.formValid(values)
    ensures
      var t := Next(WizardState(2, 1, false, None, values), val);
      && t == WizardState(3, 2, true, Some(values), map[])
      && KeyDown(t, ArrowLeft, val) == KeyOutcome(t, true)
  {
  }
}
