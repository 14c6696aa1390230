/** Sequences of user events, and what holds along every one of them. */
module Traces {
  import opened StepTable
  import opened Wizard

  /** What a user can do to the mounted form. `FormSubmit` is the form element's own submit
      event, which runs the whole-form submit without moving between steps. */
  datatype Event =
    | Press(key: Key)
    | PrevClick
    | NextClick
    | Type(field: FieldName, text: string)
    | FormSubmit

  /** The effect of one event. Once submitted, the form stays submitted and never moves back;
      apart from the submit event, the record is captured only on the way from the
      second-to-last step to the last, and a submitted form on the last step is left alone. */
  function Apply(s: WizardState, e: Event, val: Validator): (t: WizardState)
    requires Inv(s)
    ensures Inv(t)
    ensures s.isSubmitted ==> t.isSubmitted && t.currentStep >= s.currentStep
    ensures !e.FormSubmit? && !s.isSubmitted && t.isSubmitted ==>
      && s.currentStep == |Steps| - 2 && t.currentStep == |Steps| - 1 && t.previousStep == |Steps| - 2
      && t.submittedData == Some(s.values)
    ensures !e.FormSubmit? && s.isSubmitted && s.currentStep == |Steps| - 1 ==> t == s
  {
    match e
    case Press(key) => KeyDown(s, key, val).state
    case PrevClick => ClickPrev(s)
    case NextClick => ClickNext(s, val)
    case Type(f, text) => Input(s, f, text)
    case FormSubmit => HandleSubmit(s, val)
  }

  /** The state after a sequence of events, taken in order. */
  function Run(s: WizardState, events: seq<Event>, val: Validator): (t: WizardState)
    requires Inv(s)
    ensures Inv(t)
    decreases |events|
  {
    if events == [] then s else Run(Apply(s, events[0], val), events[1..], val)
  }

  /** Submission is permanent and there is no way back after it: whatever follows,
      the form stays submitted and the step shown never decreases. */
  lemma {:induction false} SubmissionIsPermanent(s: WizardState, events: seq<Event>, val: Validator)
    requires Inv(s) && s.isSubmitted
    ensures Run(s, events, val).isSubmitted
    ensures Run(s, events, val).currentStep >= s.currentStep
    decreases |events|
  {
    if events != [] {
      SubmissionIsPermanent(Apply(s, events[0], val), events[1..], val);
    }
  }

  /** No event in the sequence is the form's own submit event. */
  predicate NoFormSubmit(events: seq<Event>)
  {
    forall i :: 0 <= i < |events| ==> !events[i].FormSubmit?
  }

  /** The form counts as submitted only on the review step, reached from the step before it. */
  predicate SubmittedOnReview(s: WizardState)
  {
    s.isSubmitted ==> s.currentStep == |Steps| - 1 && s.previousStep == |Steps| - 2
  }

  /** Without the form's submit event, a submitted form on the review step is final:
      no sequence of events changes anything, so the captured record is never replaced. */
  lemma {:induction false} SubmittedReviewIsFinal(s: WizardState, events: seq<Event>, val: Validator)
    requires Inv(s) && s.isSubmitted && s.currentStep == |Steps| - 1
    requires NoFormSubmit(events)
    ensures Run(s, events, val) == s
    decreases |events|
  {
    if events != [] {
      assert !events[0].FormSubmit?;
      SubmittedReviewIsFinal(Apply(s, events[0], val), events[1..], val);
    }
  }

  /** Without the form's submit event, submission only ever happens on the review step. */
  lemma {:induction false} SubmittedOnReviewIsKept(s: WizardState, events: seq<Event>, val: Validator)
    requires Inv(s) && SubmittedOnReview(s)
    requires NoFormSubmit(events)
    ensures SubmittedOnReview(Run(s, events, val))
    decreases |events|
  {
    if events != [] {
      assert !events[0].FormSubmit?;
      SubmittedOnReviewIsKept(Apply(s, events[0], val), events[1..], val);
    }
  }

  /** From a freshly mounted form and without the form's submit event, every reachable state
      keeps the indices in range and is submitted only as (review step, came from step 2). */
  lemma ReachableStates(events: seq<Event>, val: Validator)
    requires NoFormSubmit(events)
    ensures Inv(Run(Initial, events, val))
    ensures SubmittedOnReview(Run(Initial, events, val))
  {
    SubmittedOnReviewIsKept(Initial, events, val);
  }

  /** The submit event alone can mark the form submitted on the first step, which is why the
      lemmas above exclude it. */
  lemma FormSubmitCanSubmitEarly(val: Validator)
    requires val.formValid(map[])
    ensures
      var t := Apply(Initial, FormSubmit, val);
      t.isSubmitted && t.currentStep == 0 && !SubmittedOnReview(t)
  {
  }
}
