# Multi-step form wizard, modelled in Dafny

This project models the step wizard inside the `Form` component of a client-side
multi-step form. The form has four steps: personal information, address, preferences,
and review & submit. The model covers:

- the fixed step table and the fields each step validates;
- the component's state: `currentStep`, `previousStep`, `isSubmitted`, `submittedData`
  and the live field values;
- the handlers `processForm`, `next` and `prev`, the document-wide keydown handler, and
  the Previous/Next buttons with their disabled rules;
- the derived transition direction `delta` and the per-step status of the progress bar.

Files and modules:

- `steps.dfy`, module `StepTable`: the step table, the status of each step in the progress
  bar, and lemmas about the bar's layout.
- `wizard.dfy`, module `Wizard`: the state as a datatype, and every handler as a function
  from the old state to the new one. Each function's contract states what the handler
  promises.
- `component.dfy`, module `Component`: the component as a class `Form`. Its fields are the
  state variables. Its methods update them step by step, as the handlers do, and each
  method is proved to end in the state that the matching `Wizard` function gives.
- `traces.dfy`, module `Traces`: user events (key presses, button clicks, typing, the form's
  own submit event), runs of event sequences, and induction lemmas over every run.

The validation schema is not part of this model, so it is left uninterpreted. A
`Validator` holds two arbitrary functions:

- `fieldValid(f, values)`: whether field `f` has no error, given all the values;
- `formValid(values)`: whether the whole record passes.

Validating a step's fields succeeds when none of its listed fields has an error, so a step
with no fields always passes. Each asynchronous handler is treated as one atomic step.

Where the design description and the code differ, the model follows the code:

- `prev` does not look at `isSubmitted`. Going back after submission is blocked only by the
  keydown handler and by the Previous button's disabled rule. `Wizard.Prev` has no such
  guard; `Wizard.ClickPrev`, `Wizard.KeyDown` and `Traces.SubmissionIsPermanent` show the
  guard.
- `next` moves from step 2 to step 3 even when the whole-form submit finds the record
  invalid and `processForm` does not run. The design says submission happens exactly on
  that move. `Wizard.Next` states both outcomes. So "submitted" and "on the review step"
  agree only when the move captured the record.
- The form's own submit event also runs `processForm`, on any step. So "submitted implies
  review step" is proved only for event sequences without that event
  (`Traces.ReachableStates`). `Traces.FormSubmitCanSubmitEarly` shows the event breaking it.

## Model

| member | source | states |
|---|---|---|
| `StepTable.FieldsBelongToOneDataStep` | src/components/form.tsx:15-37 | every field of the record is validated by exactly one of the first two steps; steps 3 and 4 list no fields |
| `StepTable.StatusOf` | src/components/form.tsx:155-181 | a step is completed iff its index is below the current step, current iff equal, upcoming iff above: exactly one of the three |
| `StepTable.ProgressLayout` | src/components/form.tsx:155-181 | for a current step in range, the bar is all completed before it, current at it, all upcoming after it |
| `StepTable.ExactlyOneCurrent` | src/components/form.tsx:155-181 | exactly one step is marked current when the current index is in range, and none otherwise |
| `Wizard.InitialIsValid` | src/components/form.tsx:41-45 | the mount state (0, 0, not submitted, no record, no values) satisfies the state invariant |
| `Wizard.Delta` | src/components/form.tsx:46 | in every valid state the direction is -1, 0 or 1, and it is 0 exactly when the two indices agree |
| `Wizard.FieldlessStepsAlwaysPass` | src/components/form.tsx:26-36 | a step with an empty field list passes validation whatever the schema and values |
| `Wizard.ProcessForm` | src/components/form.tsx:73-77 | the record is stored, the values are cleared, the form is marked submitted, and the indices are unchanged |
| `Wizard.HandleSubmit` | src/components/form.tsx:96 | `processForm` runs on the current values iff the whole schema accepts them; otherwise nothing changes |
| `Wizard.Next` | src/components/form.tsx:88-101 | failed validation changes nothing; the last step is a no-op; otherwise previous := current and current + 1, so delta is 1; only a move from step 2 can capture the record, and that move happens whether or not the capture does |
| `Wizard.Prev` | src/components/form.tsx:103-108 | step 0 is a no-op; otherwise previous := current and current - 1, so delta is -1; nothing else changes |
| `Wizard.KeyDown` | src/components/form.tsx:112-130 | after submission ArrowLeft is suppressed and changes nothing; ArrowRight always runs `next`; ArrowLeft runs `prev` only before submission; other keys do nothing |
| `Wizard.ClickPrev` | src/components/form.tsx:487-490 | the Previous button has no effect once submitted and acts exactly as `prev` before |
| `Wizard.ClickNext` | src/components/form.tsx:509-512 | the Next button has no effect once submitted and acts exactly as `next` before |
| `Wizard.Input` | src/components/form.tsx:190-411 | typing reaches a field only while its step is shown, and changes only that field's value |
| `Wizard.PersonalInformationScenario` | src/components/form.tsx:88-101 | with valid personal details, `next` from the mount state gives (1, 0, not submitted), keeping the values |
| `Wizard.ReviewScenario` | src/components/form.tsx:94-118 | with a valid record, `next` from step 2 gives (3, 2, submitted, record captured, values cleared), and ArrowLeft then only suppresses its default |
| `Component.Form.constructor` | src/components/form.tsx:41-45 | mounting sets every state variable to its initial value |
| `Component.Form.ProcessForm` | src/components/form.tsx:73-77 | the method stores the record, clears the values and sets the flag, ending in `Wizard.ProcessForm`'s state |
| `Component.Form.HandleSubmit` | src/components/form.tsx:189 | the method ends in `Wizard.HandleSubmit`'s state |
| `Component.Form.Next` | src/components/form.tsx:88-101 | the method leaves the state unchanged on failed validation or on the last step, otherwise advances by one, ending in `Wizard.Next`'s state |
| `Component.Form.Prev` | src/components/form.tsx:103-108 | the method is a no-op on step 0 and otherwise goes back by one, ending in `Wizard.Prev`'s state |
| `Component.Form.HandleKeydown` | src/components/form.tsx:112-130 | the default is suppressed iff the form was submitted and the key is ArrowLeft; after submission only ArrowRight can change the state; the result is `Wizard.KeyDown`'s |
| `Component.Form.ClickPrev` | src/components/form.tsx:487-490 | a click changes nothing once submitted, and ends in `Wizard.ClickPrev`'s state |
| `Component.Form.ClickNext` | src/components/form.tsx:509-512 | a click changes nothing once submitted, and ends in `Wizard.ClickNext`'s state |
| `Component.Form.Input` | src/components/form.tsx:190-411 | the method ends in `Wizard.Input`'s state |
| `Traces.Apply` | src/components/form.tsx:77-130 | one event keeps the invariant; a submitted form stays submitted and never moves back; apart from the submit event, capture happens only on the move from step 2 to step 3, storing the values held at that moment; a submitted form on the review step is left unchanged |
| `Traces.Run` | src/components/form.tsx:41-46 | every sequence of events keeps both indices in range, at most one apart, and the record present exactly when submitted |
| `Traces.SubmissionIsPermanent` | src/components/form.tsx:112-130 | once submitted, after any sequence of events the form is still submitted and the step shown has not decreased |
| `Traces.SubmittedReviewIsFinal` | src/components/form.tsx:94-99 | without the submit event, no sequence of events changes a submitted form on the review step, so the captured record is never replaced |
| `Traces.SubmittedOnReviewIsKept` | src/components/form.tsx:94-99 | without the submit event, "submitted implies (review step, came from step 2)" is preserved by every sequence of events |
| `Traces.ReachableStates` | src/components/form.tsx:41-46 | every state reached from mount without the submit event satisfies the invariant, and is submitted only on the review step reached from step 2 |
| `Traces.FormSubmitCanSubmitEarly` | src/components/form.tsx:189 | the form's submit event can mark the form submitted on step 0 when the schema accepts empty values |

## Left out

- The schema's rules and react-hook-form's `trigger`, `handleSubmit` and `reset` are external libraries. Validation is two uninterpreted predicates. `reset` clears the values to an empty map, because the form declares no default values.
- `Wizard.HandleSubmit` passes the live values to `processForm`, while the library passes the schema's parsed output; any schema transform is not modelled.
- The field-level error messages set by a failed validation are not modelled; they are presentation only.
- Dark mode (`toggleDarkMode` and the media-query effect) is a DOM side effect.
- The success toast calls an external UI hook.
- The rendered markup, CSS classes and the entry animation are presentation. The animation only reads `delta`, which is modelled.
- The listener's add/remove on mount and unmount, and async scheduling, are not modelled. Each handler runs as one atomic step, and closures see the current state.
- The two preference checkboxes are not registered with the form, so they hold no modelled state.
- `next.config.ts` is framework configuration with no logic.
