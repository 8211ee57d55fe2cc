/**
 * The form that adds a lift type: it refuses a blank name, inserts the trimmed name, and maps
 * the insert's outcome onto its error, success message, input and submitting flag.
 */
module AddLiftTypeForm {
  import opened Wrappers
  import opened Strings
  import opened LiftTypeSelector

  const NameRequired := "Please enter a lift type name"
  const AlreadyExists := "This lift type already exists"
  const AddFailedDefault := "Failed to add lift type"
  const Unexpected := "An unexpected error occurred"
  const AddedPrefix := "Added new lift type: "

  /** The Postgres error code of a unique-constraint violation. */
  const UniqueViolation := "23505"

  /**
   * How the insert of the new row ends: the row it returned (if any), an error the backend
   * reported with its code and message, or an exception thrown on the way.
   */
  datatype InsertResult =
    | Inserted(data: Option<LiftType>)
    | InsertFailed(code: string, message: string)
    | Threw

  /**
   * The error shown for a reported insert error: a duplicate name has its own message, any
   * other error shows its own message or, when that is empty, the generic one; never empty.
   */
  function InsertErrorMessage(code: string, message: string): (r: string)
    ensures r != ""
    ensures code == UniqueViolation ==> r == AlreadyExists
    ensures code != UniqueViolation && message != "" ==> r == message
    ensures code != UniqueViolation && message == "" ==> r == AddFailedDefault
  {
    if code == UniqueViolation then AlreadyExists else MessageOr(message, AddFailedDefault)
  }

  /** The form's state; `delivered` is every row handed to `onSuccess`, oldest first. */
  class Form {
    const hasOnSuccess: bool
    var liftTypeName: string
    var isSubmitting: bool
    var error: Option<string>
    var successMessage: Option<string>
    var delivered: seq<LiftType>

    constructor (hasOnSuccess: bool)
      ensures this.hasOnSuccess == hasOnSuccess && liftTypeName == "" && !isSubmitting
      ensures error == None && successMessage == None && delivered == []
    {
      this.hasOnSuccess := hasOnSuccess;
      liftTypeName := "";
      isSubmitting := false;
      error := None;
      successMessage := None;
      delivered := [];
    }

    /** The input's `onChange`; the input is disabled while a submission is in flight. */
    method Type(name: string)
      requires !isSubmitting
      modifies this`liftTypeName
      ensures liftTypeName == name
    {
      liftTypeName := name;
    }

    /**
     * `handleSubmit` up to the insert: a blank name only sets the error; otherwise the error
     * and success message are cleared, `isSubmitting` is set, and the trimmed name is what gets
     * inserted.
     */
    method BeginSubmit() returns (insertName: Option<string>)
      modifies this`error, this`successMessage, this`isSubmitting
      ensures insertName.None? <==> AllWhitespace(liftTypeName)
      ensures insertName.None? ==>
                error == Some(NameRequired) && successMessage == old(successMessage) && isSubmitting == old(isSubmitting)
      ensures insertName.Some? ==>
                && insertName.value == Trim(liftTypeName)
                && insertName.value != [] && !IsWhitespace(insertName.value[0])
                && !IsWhitespace(insertName.value[|insertName.value| - 1])
                && isSubmitting && error == None && successMessage == None
    {
      if IsBlank(liftTypeName) {
        error := Some(NameRequired);
        return None;
      }
      isSubmitting := true;
      error := None;
      successMessage := None;
      return Some(Trim(liftTypeName));
    }

    /**
     * `handleSubmit` after the insert. A reported error sets its message and keeps the input;
     * a thrown exception sets the generic one; a success shows the typed (untrimmed) name,
     * clears the input and hands the returned row to `onSuccess`, whose own exception is
     * caught like any other. `isSubmitting` ends false whatever happened.
     */
    method FinishSubmit(result: InsertResult, callbackThrows: bool)
      requires isSubmitting
      modifies this`error, this`successMessage, this`liftTypeName, this`isSubmitting, this`delivered
      ensures !isSubmitting
      ensures result.InsertFailed? ==>
                && error == Some(InsertErrorMessage(result.code, result.message))
                && successMessage == old(successMessage) && liftTypeName == old(liftTypeName) && delivered == old(delivered)
      ensures result.Threw? ==>
                && error == Some(Unexpected)
                && successMessage == old(successMessage) && liftTypeName == old(liftTypeName) && delivered == old(delivered)
      ensures result.Inserted? ==>
                var called := hasOnSuccess && result.data.Some?;
                && successMessage == Some(AddedPrefix + old(liftTypeName)) && liftTypeName == ""
                && delivered == old(delivered) + (if called then [result.data.value] else [])
                && error == if called && callbackThrows then Some(Unexpected) else old(error)
    {
      match result {
        case InsertFailed(code, message) =>
          error := Some(InsertErrorMessage(code, message));
        case Threw =>
          error := Some(Unexpected);
        case Inserted(data) =>
          successMessage := Some(AddedPrefix + liftTypeName);
          liftTypeName := "";
          if hasOnSuccess && data.Some? {
            delivered := delivered + [data.value];
            if callbackThrows {
              error := Some(Unexpected);
            }
          }
      }
      isSubmitting := false;
    }

    /**
     * The whole `handleSubmit`: nothing is inserted for a blank name; otherwise the trimmed
     * name is inserted, the form ends not submitting, and an error and a success message are
     * both shown only when `onSuccess` itself threw.
     */
    method HandleSubmit(result: InsertResult, callbackThrows: bool) returns (insertName: Option<string>)
      modifies this`error, this`successMessage, this`liftTypeName, this`isSubmitting, this`delivered
      ensures insertName.None? <==> AllWhitespace(old(liftTypeName))
      ensures insertName.None? ==>
                && error == Some(NameRequired) && isSubmitting == old(isSubmitting)
                && successMessage == old(successMessage) && liftTypeName == old(liftTypeName) && delivered == old(delivered)
      ensures insertName.Some? ==> insertName.value == Trim(old(liftTypeName)) && !isSubmitting
      ensures insertName.Some? && !result.Inserted? ==> liftTypeName == old(liftTypeName) && successMessage == None
      ensures insertName.Some? && result.Inserted? ==>
                successMessage == Some(AddedPrefix + old(liftTypeName)) && liftTypeName == ""
      ensures insertName.Some? && result.Inserted? ==>
                error == if result.data.Some? && hasOnSuccess && callbackThrows then Some(Unexpected) else None
      ensures insertName.Some? && result.InsertFailed? ==> error == Some(InsertErrorMessage(result.code, result.message))
      ensures insertName.Some? && result.Threw? ==> error == Some(Unexpected)
      ensures insertName.Some? ==>
                delivered == old(delivered) + if result.Inserted? && result.data.Some? && hasOnSuccess then [result.data.value] else []
      ensures insertName.Some? ==>
                (error.Some? && successMessage.Some? <==> result.Inserted? && result.data.Some? && hasOnSuccess && callbackThrows)
    {
      insertName := BeginSubmit();
      if insertName.None? {
        return;
      }
      FinishSubmit(result, callbackThrows);
    }
  }
}
