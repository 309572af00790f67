/** The `Contact` component of contact.jsx as an object: its three state hooks, plus the timers
    its submit handler has set and that have not fired yet. */
module ContactComponent {
  import C = ContactWorkflow

  class ContactForm {
    var formData: C.FormData
    var isSubmitting: bool
    var submitStatus: C.SubmitStatus
    var completionTimers: nat
    var resetTimers: nat

    function Snapshot(): C.State
      reads this
    {
      C.State(formData, isSubmitting, submitStatus, completionTimers, resetTimers)
    }

    constructor()
      ensures Snapshot() == C.Initial
    {
      formData := C.EmptyForm;
      isSubmitting := false;
      submitStatus := C.NoStatus;
      completionTimers := 0;
      resetTimers := 0;
    }

    /** Whether the submit button is disabled. */
    function ButtonDisabled(): (d: bool)
      reads this
      ensures d <==> C.ButtonDisabled(Snapshot())
    {
      isSubmitting
    }

    /** Whether the success notice is shown. */
    function AlertShown(): (shown: bool)
      reads this
      ensures shown <==> C.AlertShown(Snapshot())
    {
      submitStatus == C.Success
    }

    /** `handleInputChange` for the input named `field`. */
    method HandleInputChange(field: C.Field, value: string)
      modifies this
      ensures Snapshot() == C.InputChange(old(Snapshot()), field, value)
    {
      formData := C.Set(formData, field, value);
    }

    /** `handleSubmit`: `preventDefault` aside, sets the two flags and the 2 s timer. */
    method HandleSubmit()
      modifies this
      ensures Snapshot() == C.Submit(old(Snapshot()))
    {
      isSubmitting := true;
      submitStatus := C.NoStatus;
      completionTimers := completionTimers + 1;
    }

    /** The 2 s timer fires. */
    method CompletionFires()
      requires completionTimers > 0
      modifies this
      ensures Snapshot() == C.CompletionFires(old(Snapshot()))
    {
      completionTimers := completionTimers - 1;
      isSubmitting := false;
      submitStatus := C.Success;
      formData := C.FormData("", "", "", "");
      resetTimers := resetTimers + 1;
    }

    /** The 3 s timer fires. */
    method ResetFires()
      requires resetTimers > 0
      modifies this
      ensures Snapshot() == C.ResetFires(old(Snapshot()))
    {
      resetTimers := resetTimers - 1;
      submitStatus := C.NoStatus;
    }
  }
}
