/** The quiz step machine: seven fixed steps, answers keyed by step id, one
    selection per step, and the promo-code input of the last step. */
module Quiz {
  import opened Options
  import opened Ascii

  /** A step asks for one of its options, or (the promo-code step) for free text. */
  datatype Kind = Choice | Input

  datatype Step = Step(id: string, kind: Kind, options: seq<string>)

  const Steps: seq<Step> := [
    Step("systemType", Choice, ["split", "package", "gaspack"]),
    Step("type", Choice, ["ranch", "two-story", "townhouse", "condo"]),
    Step("size", Choice, ["2ton", "3ton", "4ton", "5ton"]),
    Step("currentSystem", Choice, ["furnace", "heatpump", "boiler", "unknown"]),
    Step("issue", Choice, ["broken", "old", "bills", "comfort"]),
    Step("priority", Choice, ["budget", "value", "performance"]),
    Step("rebate", Input, [])
  ]

  const LastStep := |Steps| - 1

  /** Seven steps, only the last of which takes typed input; the step ids differ. */
  lemma StepTable()
    ensures |Steps| == 7 && LastStep == 6
    ensures forall i :: 0 <= i < |Steps| ==> (Steps[i].kind == Input <==> i == LastStep)
    ensures forall i :: 0 <= i < |Steps| ==> (Steps[i].options == [] <==> i == LastStep)
    ensures forall i, j :: 0 <= i < j < |Steps| ==> Steps[i].id != Steps[j].id
  {
    assert forall i, j :: 0 <= i < j < |Steps| ==> |Steps[i].id| != |Steps[j].id| || Steps[i].id[0] != Steps[j].id[0];
  }

  /** The state `handleSelect` reads and writes: the step shown and the answers so far. */
  datatype QuizState = QuizState(step: nat, answers: map<string, string>)

  /** The state after an event, and the answers handed to `onComplete` if it fired. */
  datatype Outcome = Outcome(state: QuizState, completed: Option<map<string, string>>)

  const Start := QuizState(0, map[])

  predicate InRange(s: QuizState)
  {
    s.step < |Steps|
  }

  /** handleSelect: record `value` under the current step's id, then advance one
      step, or complete with the new answers on the last step. */
  function Select(s: QuizState, value: string): (o: Outcome)
    requires InRange(s)
  {
    var answers := s.answers[Steps[s.step].id := value];
    if s.step < LastStep then Outcome(QuizState(s.step + 1, answers), None)
    else Outcome(QuizState(s.step, answers), Some(answers))
  }

  /** A selection stores its value under the current step's id and changes no other
      answer; the step stays in range and moves by one until the last, which completes. */
  lemma SelectSpec(s: QuizState, value: string)
    requires InRange(s)
    ensures var o := Select(s, value);
      && InRange(o.state)
      && Steps[s.step].id in o.state.answers && o.state.answers[Steps[s.step].id] == value
      && (forall k :: k != Steps[s.step].id ==>
            (k in o.state.answers <==> k in s.answers) && (k in s.answers ==> o.state.answers[k] == s.answers[k]))
      && (s.step < LastStep <==> o.completed.None?)
      && (s.step < LastStep ==> o.state.step == s.step + 1)
      && (s.step == LastStep ==> o.state.step == s.step && o.completed == Some(o.state.answers))
  {
  }

  /** Clicks replayed from a state until the quiz completes or the clicks run out. */
  function Replay(s: QuizState, values: seq<string>): (o: Outcome)
    requires InRange(s)
    ensures InRange(o.state)
    decreases |values|
  {
    if values == [] then Outcome(s, None)
    else
      var o := Select(s, values[0]);
      if o.completed.Some? then o else Replay(o.state, values[1..])
  }

  /** Before the last step a click advances and the rest of the clicks replay from there. */
  lemma ReplayStep(s: QuizState, values: seq<string>)
    requires InRange(s) && s.step < LastStep && values != []
    ensures Select(s, values[0]).completed.None?
    ensures Replay(s, values) == Replay(Select(s, values[0]).state, values[1..])
  {
  }

  /** One selection for each remaining step completes the quiz on the last step. */
  lemma {:induction false} ReplayCompletes(s: QuizState, values: seq<string>)
    requires InRange(s) && |values| == |Steps| - s.step
    ensures Replay(s, values).completed.Some? && Replay(s, values).state.step == LastStep
    ensures Replay(s, values).completed == Some(Replay(s, values).state.answers)
    decreases |values|
  {
    if s.step < LastStep {
      ReplayStep(s, values);
      ReplayCompletes(Select(s, values[0]).state, values[1..]);
    }
  }

  /** ... with each remaining step's value stored under that step's id. */
  lemma {:induction false} ReplayRecords(s: QuizState, values: seq<string>)
    requires InRange(s) && |values| == |Steps| - s.step
    ensures forall i :: s.step <= i < |Steps| ==>
      Steps[i].id in Replay(s, values).state.answers && Replay(s, values).state.answers[Steps[i].id] == values[i - s.step]
    decreases |values|
  {
    StepTable();
    if s.step < LastStep {
      var t := Select(s, values[0]).state;
      var rest := values[1..];
      ReplayStep(s, values);
      ReplayRecords(t, rest);
      ReplayKeeps(t, rest);
      var m := Replay(t, rest).state.answers;
      forall i | s.step <= i < |Steps|
        ensures Steps[i].id in m && m[Steps[i].id] == values[i - s.step]
      {
        if i > s.step {
          assert rest[i - t.step] == values[i - s.step];
        } else {
          assert t.answers[Steps[i].id] == values[0];
          assert forall j :: t.step <= j < |Steps| ==> Steps[i].id != Steps[j].id;
        }
      }
    }
  }

  /** ... and every answer under another key left as it was. */
  lemma {:induction false} ReplayKeeps(s: QuizState, values: seq<string>)
    requires InRange(s) && |values| == |Steps| - s.step
    ensures forall k :: (forall i :: s.step <= i < |Steps| ==> k != Steps[i].id) ==>
      (k in Replay(s, values).state.answers <==> k in s.answers) &&
      (k in s.answers ==> Replay(s, values).state.answers[k] == s.answers[k])
    decreases |values|
  {
    if s.step < LastStep {
      ReplayStep(s, values);
      ReplayKeeps(Select(s, values[0]).state, values[1..]);
    }
  }

  /** Seven selections from the start give an answer for every step id. */
  lemma SevenSelections(values: seq<string>)
    requires |values| == |Steps|
    ensures var o := Replay(Start, values);
      && o.completed.Some?
      && (forall i :: 0 <= i < |Steps| ==>
            Steps[i].id in o.completed.value && o.completed.value[Steps[i].id] == values[i])
      && (forall k :: k in o.completed.value ==> exists i :: 0 <= i < |Steps| && Steps[i].id == k)
  {
    StepTable();
    ReplayCompletes(Start, values);
    ReplayRecords(Start, values);
    ReplayKeeps(Start, values);
  }

  /** What handleRebateSubmit does: the code it would look up, if any, and the resulting state. */
  datatype Submission = Submission(lookup: Option<string>, outcome: Outcome)

  /** handleRebateSubmit, with the lookup's result as `found`: a blank input selects ""
      without a lookup; otherwise the trimmed input is looked up and selected only if found. */
  function RebateSubmit(s: QuizState, rebateInput: string, found: bool): (r: Submission)
    requires InRange(s)
    ensures Trim(rebateInput) == [] ==> r == Submission(None, Select(s, ""))
    ensures Trim(rebateInput) != [] ==> r.lookup == Some(Trim(rebateInput))
    ensures Trim(rebateInput) != [] && found ==> r.outcome == Select(s, Trim(rebateInput))
    ensures Trim(rebateInput) != [] && !found ==> r.outcome == Outcome(s, None)
  {
    var value := Trim(rebateInput);
    if value == "" then Submission(None, Select(s, ""))
    else if found then Submission(Some(value), Select(s, value))
    else Submission(Some(value), Outcome(s, None))
  }

  /** On the promo-code step, the value a submission records is "" (for an all-blank
      input) or the input without its surrounding whitespace, never a padded string;
      a failed lookup records nothing. */
  lemma RecordedRebateIsTrimmed(s: QuizState, rebateInput: string, found: bool)
    requires s.step == LastStep
    ensures var r := RebateSubmit(s, rebateInput, found);
      r.outcome.completed.Some? ==>
        var v := r.outcome.completed.value[Steps[LastStep].id];
        && (v == "" <==> forall k :: 0 <= k < |rebateInput| ==> IsSpace(rebateInput[k]))
        && (v != "" ==> !IsSpace(v[0]) && !IsSpace(v[|v| - 1]) && exists i :: OccursAt(rebateInput, v, i))
    ensures !found && Trim(rebateInput) != [] ==> RebateSubmit(s, rebateInput, found).outcome.completed.None?
  {
    TrimEmptyIffBlank(rebateInput);
  }

  /** The quiz component's state. */
  class QuizController {
    var currentStep: nat
    var answers: map<string, string>

    ghost predicate Valid()
      reads this
    {
      currentStep < |Steps|
    }

    function State(): QuizState
      reads this
    {
      QuizState(currentStep, answers)
    }

    constructor ()
      ensures Valid() && State() == Start
    {
      currentStep := 0;
      answers := map[];
    }

    method HandleSelect(value: string) returns (completed: Option<map<string, string>>)
      requires Valid()
      modifies this
      ensures Valid()
      ensures Outcome(State(), completed) == Select(old(State()), value)
    {
      var newAnswers := answers[Steps[currentStep].id := value];
      answers := newAnswers;
      if currentStep < |Steps| - 1 {
        currentStep := currentStep + 1;
        completed := None;
      } else {
        completed := Some(newAnswers);
      }
    }

    /** `found` stands for the outcome of the request for `lookup`, when one is made. */
    method HandleRebateSubmit(rebateInput: string, found: bool)
      returns (lookup: Option<string>, completed: Option<map<string, string>>)
      requires Valid()
      modifies this
      ensures Valid()
      ensures Submission(lookup, Outcome(State(), completed)) == RebateSubmit(old(State()), rebateInput, found)
    {
      var value := Trim(rebateInput);
      if value == "" {
        lookup := None;
        completed := HandleSelect("");
        return;
      }
      lookup := Some(value);
      if found {
        completed := HandleSelect(value);
      } else {
        completed := None;
      }
    }
  }
}
