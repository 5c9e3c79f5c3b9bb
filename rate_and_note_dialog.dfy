/** The rate-and-note dialog: the submit guard, the `isSubmitting` flag around the
    awaited call, clear-on-success and keep-on-failure, and the close handlers. */
module RateAndNoteDialog {

  /** One call of `onSubmit`. */
  datatype SubmitCall = SubmitCall(placeId: string, rating: real, notes: string)

  /** The dialog's state for one place; `submitCalls` records the calls of
      `onSubmit` and `closeCalls` counts the calls of `onClose`. */
  class RateDialog {
    var placeId: string
    var rating: string
    var notes: string
    var isSubmitting: bool
    var submitCalls: seq<SubmitCall>
    var closeCalls: nat

    constructor(placeId: string)
      ensures this.placeId == placeId
      ensures rating == "" && notes == "" && !isSubmitting && submitCalls == [] && closeCalls == 0
    {
      this.placeId := placeId;
      rating := "";
      notes := "";
      isSubmitting := false;
      submitCalls := [];
      closeCalls := 0;
    }

    /** The Submit button is disabled while submitting or while no rating is typed. */
    predicate SubmitDisabled()
      reads this
    {
      isSubmitting || rating == ""
    }

    /** The rating and notes inputs. */
    method Type(newRating: string, newNotes: string)
      modifies this
      ensures rating == newRating && notes == newNotes
      ensures placeId == old(placeId) && isSubmitting == old(isSubmitting)
      ensures submitCalls == old(submitCalls) && closeCalls == old(closeCalls)
    {
      rating := newRating;
      notes := newNotes;
    }

    /** `handleSubmit` up to the awaited call: with an empty rating or place id
        nothing happens; otherwise the flag is raised and `onSubmit` is called with
        the parsed rating and the notes. */
    method BeginSubmit(parseFloat: string -> real) returns (started: bool)
      modifies this
      ensures started <==> old(rating) != "" && old(placeId) != ""
      ensures started ==>
        && isSubmitting
        && submitCalls == old(submitCalls) + [SubmitCall(placeId, parseFloat(rating), notes)]
      ensures !started ==> isSubmitting == old(isSubmitting) && submitCalls == old(submitCalls)
      ensures placeId == old(placeId) && rating == old(rating) && notes == old(notes)
      ensures closeCalls == old(closeCalls)
    {
      if rating == "" || placeId == "" {
        return false;
      }
      isSubmitting := true;
      submitCalls := submitCalls + [SubmitCall(placeId, parseFloat(rating), notes)];
      started := true;
    }

    /** `handleSubmit` after the awaited call: on success the fields are cleared and
        `onClose` is called; on failure both are kept; either way the flag drops. */
    method FinishSubmit(succeeded: bool)
      requires isSubmitting
      modifies this
      ensures !isSubmitting
      ensures succeeded ==> rating == "" && notes == "" && closeCalls == old(closeCalls) + 1
      ensures !succeeded ==> rating == old(rating) && notes == old(notes) && closeCalls == old(closeCalls)
      ensures placeId == old(placeId) && submitCalls == old(submitCalls)
    {
      if succeeded {
        rating := "";
        notes := "";
        closeCalls := closeCalls + 1;
      }
      isSubmitting := false;
    }

    /** The dialog's `onOpenChange`: closing clears both fields and calls `onClose`;
        opening changes nothing. */
    method OpenChange(open: bool)
      modifies this
      ensures !open ==> rating == "" && notes == "" && closeCalls == old(closeCalls) + 1
      ensures open ==> rating == old(rating) && notes == old(notes) && closeCalls == old(closeCalls)
      ensures placeId == old(placeId) && isSubmitting == old(isSubmitting) && submitCalls == old(submitCalls)
    {
      if !open {
        rating := "";
        notes := "";
        closeCalls := closeCalls + 1;
      }
    }

    /** The Cancel button calls `onClose` without clearing anything; it is disabled,
        and so does nothing, while submitting. */
    method Cancel()
      modifies this
      ensures closeCalls == old(closeCalls) + (if old(isSubmitting) then 0 else 1)
      ensures rating == old(rating) && notes == old(notes)
      ensures placeId == old(placeId) && isSubmitting == old(isSubmitting) && submitCalls == old(submitCalls)
    {
      if !isSubmitting {
        closeCalls := closeCalls + 1;
      }
    }
  }

  /** A whole submit on a fresh dialog: the flag is up during the call and down
      after it whatever the outcome; success clears the fields and closes, failure
      keeps them and does not close. */
  method SubmitOnce(placeId: string, rating: string, notes: string, parseFloat: string -> real, succeeds: bool)
    returns (called: bool, submittingDuring: bool, submittingAfter: bool, ratingAfter: string, notesAfter: string, closed: bool)
    ensures called <==> rating != "" && placeId != ""
    ensures called ==> submittingDuring && !submittingAfter
    ensures !called ==> !submittingAfter && ratingAfter == rating && notesAfter == notes && !closed
    ensures called && succeeds ==> ratingAfter == "" && notesAfter == "" && closed
    ensures called && !succeeds ==> ratingAfter == rating && notesAfter == notes && !closed
  {
    var dialog := new RateDialog(placeId);
    dialog.Type(rating, notes);
    called := dialog.BeginSubmit(parseFloat);
    submittingDuring := dialog.isSubmitting;
    if called {
      dialog.FinishSubmit(succeeds);
    }
    submittingAfter := dialog.isSubmitting;
    ratingAfter := dialog.rating;
    notesAfter := dialog.notes;
    closed := dialog.closeCalls > 0;
  }

  /** The Submit button is enabled exactly when a submit would go through, for a
      dialog with a place id that is not already submitting. */
  method EnabledMeansSubmits(placeId: string, rating: string, parseFloat: string -> real)
    returns (enabled: bool, called: bool)
    requires placeId != ""
    ensures enabled <==> called
  {
    var dialog := new RateDialog(placeId);
    dialog.Type(rating, "");
    enabled := !dialog.SubmitDisabled();
    called := dialog.BeginSubmit(parseFloat);
  }
}
