/** The contact form (`Contact` in contact.jsx) as a state machine. Submission is simulated by
    two timers: after 2 s the form reports success and clears, and 3 s after that the success
    notice goes away. The timers not yet fired are counted in the state; each firing is an event. */
module ContactWorkflow {

  datatype Field = Name | Email | Subject | Message

  /** `formData`: one string per input, keyed by the input's `name` attribute. */
  datatype FormData = FormData(name: string, email: string, subject: string, message: string)

  const EmptyForm := FormData("", "", "", "")

  function Get(d: FormData, f: Field): string {
    match f
    case Name => d.name
    case Email => d.email
    case Subject => d.subject
    case Message => d.message
  }

  /** `{ ...prev, [name]: value }`. */
  function Set(d: FormData, f: Field, value: string): (r: FormData)
    ensures Get(r, f) == value
    ensures forall g :: g != f ==> Get(r, g) == Get(d, g)
  {
    match f
    case Name => d.(name := value)
    case Email => d.(email := value)
    case Subject => d.(subject := value)
    case Message => d.(message := value)
  }

  /** `submitStatus`: `null` or `'success'`. */
  datatype SubmitStatus = NoStatus | Success

  datatype State = State(
    formData: FormData,
    isSubmitting: bool,
    submitStatus: SubmitStatus,
    completionTimers: nat,   // 2 s timers set by handleSubmit, not yet fired
    resetTimers: nat)        // 3 s timers set by the completion callback, not yet fired

  const Initial := State(EmptyForm, false, NoStatus, 0, 0)

  /** `handleInputChange` for the input named `f`: that field becomes `value`, nothing else changes. */
  function InputChange(s: State, f: Field, value: string): (r: State)
    ensures Get(r.formData, f) == value
    ensures forall g :: g != f ==> Get(r.formData, g) == Get(s.formData, g)
    ensures r.(formData := s.formData) == s
  {
    s.(formData := Set(s.formData, f, value))
  }

  /** `handleSubmit`: submitting, no status, and a completion timer set; the fields stay. */
  function Submit(s: State): (r: State)
    ensures r.isSubmitting && r.submitStatus == NoStatus
    ensures r.completionTimers == s.completionTimers + 1
    ensures r.formData == s.formData && r.resetTimers == s.resetTimers
  {
    s.(isSubmitting := true, submitStatus := NoStatus, completionTimers := s.completionTimers + 1)
  }

  /** The 2 s callback: no longer submitting, status 'success', every field cleared, and the
      3 s reset timer set. */
  function CompletionFires(s: State): (r: State)
    requires s.completionTimers > 0
    ensures !r.isSubmitting && r.submitStatus == Success
    ensures forall f :: Get(r.formData, f) == ""
    ensures r.completionTimers == s.completionTimers - 1 && r.resetTimers == s.resetTimers + 1
  {
    State(EmptyForm, false, Success, s.completionTimers - 1, s.resetTimers + 1)
  }

  /** The 3 s callback: the status goes back to `null`; nothing else changes. */
  function ResetFires(s: State): (r: State)
    requires s.resetTimers > 0
    ensures r.submitStatus == NoStatus && r.resetTimers == s.resetTimers - 1
    ensures r.(submitStatus := s.submitStatus, resetTimers := s.resetTimers) == s
  {
    s.(submitStatus := NoStatus, resetTimers := s.resetTimers - 1)
  }

  /** `disabled={isSubmitting}` on the submit button. */
  predicate ButtonDisabled(s: State) {
    s.isSubmitting
  }

  /** `submitStatus === 'success' && ...`: the success notice. */
  predicate AlertShown(s: State) {
    s.submitStatus == Success
  }

  /** Every input carries `required`: the browser submits only a form with no empty field. */
  predicate Filled(d: FormData) {
    forall f :: Get(d, f) != ""
  }

  /** The button is disabled from a submit until its completion, and the notice is shown from a
      completion until a reset. */
  lemma DisplayFollowsState(s: State, f: Field, value: string)
    ensures ButtonDisabled(Submit(s)) && !AlertShown(Submit(s))
    ensures s.completionTimers > 0 ==> !ButtonDisabled(CompletionFires(s)) && AlertShown(CompletionFires(s))
    ensures s.resetTimers > 0 ==> !AlertShown(ResetFires(s)) && ButtonDisabled(ResetFires(s)) == ButtonDisabled(s)
    ensures ButtonDisabled(InputChange(s, f, value)) == ButtonDisabled(s)
    ensures AlertShown(InputChange(s, f, value)) == AlertShown(s)
  {
  }

  /** A completed submission leaves a form that the browser will not submit again until every
      field has been typed in anew. */
  lemma CompletionEmptiesForm(s: State)
    requires s.completionTimers > 0
    ensures !Filled(CompletionFires(s).formData)
  {
    assert Get(CompletionFires(s).formData, Name) == "";
  }

  // ---------------------------------------------------------------------------------------
  // Runs

  datatype Event = Typed(field: Field, value: string) | Submitted | CompletionTimer | ResetTimer

  /** The browser submits only while the button is enabled and every field is filled; a timer
      fires only if it was set. */
  predicate Enabled(s: State, e: Event) {
    match e
    case Typed(_, _) => true
    case Submitted => !ButtonDisabled(s) && Filled(s.formData)
    case CompletionTimer => s.completionTimers > 0
    case ResetTimer => s.resetTimers > 0
  }

  function Step(s: State, e: Event): State
    requires Enabled(s, e)
  {
    match e
    case Typed(f, value) => InputChange(s, f, value)
    case Submitted => Submit(s)
    case CompletionTimer => CompletionFires(s)
    case ResetTimer => ResetFires(s)
  }

  predicate Admissible(s: State, es: seq<Event>)
    decreases |es|
  {
    es == [] || (Enabled(s, es[0]) && Admissible(Step(s, es[0]), es[1..]))
  }

  function Run(s: State, es: seq<Event>): State
    requires Admissible(s, es)
    decreases |es|
  {
    if es == [] then s else Run(Step(s, es[0]), es[1..])
  }

  /** At most one submission is in flight, exactly while the button is disabled; a shown
      notice always has a reset timer coming; no notice is shown while submitting. */
  predicate Inv(s: State) {
    && s.completionTimers <= 1
    && (s.isSubmitting <==> s.completionTimers == 1)
    && (s.submitStatus == Success ==> s.resetTimers > 0)
    && (s.isSubmitting ==> s.submitStatus == NoStatus)
  }

  lemma StepInv(s: State, e: Event)
    requires Inv(s) && Enabled(s, e)
    ensures Inv(Step(s, e))
  {
  }

  lemma {:induction false} RunInv(s: State, es: seq<Event>)
    requires Inv(s) && Admissible(s, es)
    ensures Inv(Run(s, es))
    decreases |es|
  {
    if es != [] {
      StepInv(s, es[0]);
      RunInv(Step(s, es[0]), es[1..]);
    }
  }

  /** Once every timer has fired, the form is idle: the button is enabled and no notice is shown. */
  lemma IdleWhenTimersDone(es: seq<Event>)
    requires Admissible(Initial, es)
    ensures var s := Run(Initial, es);
      s.completionTimers == 0 && s.resetTimers == 0 ==> !ButtonDisabled(s) && !AlertShown(s)
  {
    RunInv(Initial, es);
  }

  lemma RunOne(s: State, e: Event)
    requires Enabled(s, e)
    ensures Admissible(s, [e]) && Run(s, [e]) == Step(s, e)
  {
    assert [e][1..] == [];
  }

  lemma RunCons(s: State, e: Event, es: seq<Event>)
    requires Enabled(s, e) && Admissible(Step(s, e), es)
    ensures Admissible(s, [e] + es) && Run(s, [e] + es) == Run(Step(s, e), es)
  {
    assert ([e] + es)[0] == e && ([e] + es)[1..] == es;
  }

  lemma {:induction false} RunAppend(s: State, a: seq<Event>, b: seq<Event>)
    requires Admissible(s, a) && Admissible(Run(s, a), b)
    ensures Admissible(s, a + b) && Run(s, a + b) == Run(Run(s, a), b)
    decreases |a|
  {
    if a == [] {
      assert a + b == b;
    } else {
      RunAppend(Step(s, a[0]), a[1..], b);
      assert (a + b)[0] == a[0] && (a + b)[1..] == a[1..] + b;
    }
  }

  /** A submission followed by its completion. */
  lemma SubmitThenComplete(s: State)
    requires Enabled(s, Submitted)
    ensures Admissible(s, [Submitted, CompletionTimer])
    ensures Run(s, [Submitted, CompletionTimer]) == CompletionFires(Submit(s))
  {
    RunOne(Submit(s), CompletionTimer);
    RunCons(s, Submitted, [CompletionTimer]);
    assert [Submitted] + [CompletionTimer] == [Submitted, CompletionTimer];
  }

  const Refill := [Typed(Name, "n"), Typed(Email, "e"), Typed(Subject, "s"), Typed(Message, "m")]

  /** Typing into all four inputs fills the form and changes nothing else. */
  lemma RefillRun(s: State)
    ensures Admissible(s, Refill) && Run(s, Refill) == s.(formData := FormData("n", "e", "s", "m"))
  {
    var s1 := InputChange(s, Name, "n");
    var s2 := InputChange(s1, Email, "e");
    var s3 := InputChange(s2, Subject, "s");
    RunOne(s3, Refill[3]);
    RunCons(s2, Refill[2], [Refill[3]]);
    assert [Refill[2]] + [Refill[3]] == Refill[2..];
    RunCons(s1, Refill[1], Refill[2..]);
    assert [Refill[1]] + Refill[2..] == Refill[1..];
    RunCons(s, Refill[0], Refill[1..]);
    assert [Refill[0]] + Refill[1..] == Refill;
  }

  /** The reset timer of an earlier submission is not cancelled: a second submission that
      completes before it fires loses its success notice early, while its own timer is still set. */
  lemma EarlierResetHidesLaterSuccess(s: State)
    requires s.completionTimers == 0 && Filled(s.formData) && !s.isSubmitting
    ensures var es := [Submitted, CompletionTimer] + Refill + [Submitted, CompletionTimer] + [ResetTimer];
      && Admissible(s, es)
      && var t := Run(s, es);
      && !AlertShown(t) && t.resetTimers == s.resetTimers + 1
  {
    var twice := [Submitted, CompletionTimer];
    SubmitThenComplete(s);
    var s2 := CompletionFires(Submit(s));
    RefillRun(s2);
    RunAppend(s, twice, Refill);
    var s6 := s2.(formData := FormData("n", "e", "s", "m"));
    assert Filled(s6.formData) by {
      assert forall f :: Get(s6.formData, f) != "";
    }
    SubmitThenComplete(s6);
    RunAppend(s, twice + Refill, twice);
    var s8 := CompletionFires(Submit(s6));
    RunOne(s8, ResetTimer);
    RunAppend(s, twice + Refill + twice, [ResetTimer]);
  }
}
