/** The wizard's fixed table of steps and the progress indicator drawn from it. */
module StepTable {

  /** The keys of the form's record, one per registered input. */
  datatype FieldName = FirstName | LastName | Email | Country | State | City | Street | Zip

  /** One stage of the wizard: its label, its display name and the fields validated before leaving it. */
  datatype Step = Step(id: string, name: string, fields: seq<FieldName>)

  /** The four steps in order; the last two govern no field. */
  const Steps: seq<Step> := [
    Step("Step 1", "Personal Information", [FirstName, LastName, Email]),
    Step("Step 2", "Address", [Country, State, City, Street, Zip]),
    Step("Step 3", "Preferences", []),
    Step("Step 4", "Review & Submit", [])
  ]

  /** Every field of the record is validated by exactly one of the two data-entry steps,
      and the steps after them validate nothing. */
  lemma FieldsBelongToOneDataStep(f: FieldName)
    ensures (f in Steps[0].fields) != (f in Steps[1].fields)
    ensures Steps[2].fields == [] && Steps[3].fields == []
  {
  }

  /** How the progress bar draws one step. */
  datatype Status = Completed | Current | Upcoming

  /** The classification of step `index` while `current` is shown: exactly one of the three holds. */
  function StatusOf(index: int, current: int): (st: Status)
    ensures st == Completed <==> index < current
    ensures st == Current <==> index == current
    ensures st == Upcoming <==> current < index
  {
    if current > index then Completed
    else if current == index then Current
    else Upcoming
  }

  /** The progress bar: one status per entry of the step table. */
  function Progress(current: int): seq<Status>
  {
    seq(|Steps|, i requires 0 <= i < |Steps| => StatusOf(i, current))
  }

  /** `n` copies of one status. */
  function Fill(st: Status, n: nat): (r: seq<Status>)
    ensures |r| == n
    ensures forall i :: 0 <= i < n ==> r[i] == st
  {
    if n == 0 then [] else Fill(st, n - 1) + [st]
  }

  /** A run of `n` copies of `st` holds `n` of `st` and none of anything else. */
  lemma {:induction false} FillCount(st: Status, n: nat, x: Status)
    ensures multiset(Fill(st, n))[x] == if x == st then n else 0
  {
    if n > 0 {
      FillCount(st, n - 1, x);
      assert Fill(st, n) == Fill(st, n - 1) + [st];
    }
  }

  /** While a step in range is shown, the bar reads: every earlier step completed,
      that step current, every later step upcoming. */
  lemma ProgressLayout(current: int)
    requires 0 <= current < |Steps|
    ensures Progress(current) == Fill(Completed, current) + [Current] + Fill(Upcoming, |Steps| - 1 - current)
  {
  }

  /** Exactly one step is marked current when the shown index is in range, and none otherwise. */
  lemma ExactlyOneCurrent(current: int)
    ensures multiset(Progress(current))[Current] == if 0 <= current < |Steps| then 1 else 0
  {
    if 0 <= current < |Steps| {
      ProgressLayout(current);
      FillCount(Completed, current, Current);
      FillCount(Upcoming, |Steps| - 1 - current, Current);
    } else if current < 0 {
      assert Progress(current) == Fill(Upcoming, |Steps|);
      FillCount(Upcoming, |Steps|, Current);
    } else {
      assert Progress(current) == Fill(Completed, |Steps|);
      FillCount(Completed, |Steps|, Current);
    }
  }
}
