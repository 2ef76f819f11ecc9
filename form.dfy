/**
 * The lookup form's state, with rendering stripped away: the two raw field
 * values and the per-field error messages. Typing into a field replaces its
 * value and clears its error; submitting validates the whole form and either
 * hands the payload on or records one message per failing field.
 */
module FormComponent {
  import opened Wrappers
  import opened Types
  import opened Validation

  /** What the submit handler's catch block can receive. */
  datatype Thrown = ValidationError(issues: seq<Issue>) | OtherError

  /** The field errors left after visiting `issues` in order, each overwriting its field. */
  function LastMessages(issues: seq<Issue>): map<Field, string> {
    if issues == [] then map[]
    else LastMessages(issues[..|issues| - 1])[issues[|issues| - 1].path := issues[|issues| - 1].message]
  }

  /** A field has an error exactly when some issue is about it. */
  lemma {:induction false} LastMessagesKeys(issues: seq<Issue>, f: Field)
    ensures f in LastMessages(issues) <==> exists i :: 0 <= i < |issues| && issues[i].path == f
  {
    if issues != [] {
      var init := issues[..|issues| - 1];
      LastMessagesKeys(init, f);
      if f in LastMessages(init) {
        var i :| 0 <= i < |init| && init[i].path == f;
        assert issues[i].path == f;
      }
      if exists i :: 0 <= i < |issues| && issues[i].path == f {
        var i :| 0 <= i < |issues| && issues[i].path == f;
        if i < |init| {
          assert init[i].path == f;
        }
      }
    }
  }

  /** For a field with several issues, the message of the last one is kept. */
  lemma {:induction false} LastMessageWins(issues: seq<Issue>, i: nat)
    requires i < |issues|
    requires forall j :: i < j < |issues| ==> issues[j].path != issues[i].path
    ensures issues[i].path in LastMessages(issues)
    ensures LastMessages(issues)[issues[i].path] == issues[i].message
  {
    if i < |issues| - 1 {
      var init := issues[..|issues| - 1];
      LastMessageWins(init, i);
    }
  }

  /** Every recorded message belongs to the field it is recorded under. */
  lemma {:induction false} LastMessagesMatchFields(issues: seq<Issue>)
    requires forall i :: 0 <= i < |issues| ==> IsMessageFor(issues[i].path, issues[i].message)
    ensures forall f :: f in LastMessages(issues) ==> IsMessageFor(f, LastMessages(issues)[f])
  {
    if issues != [] {
      LastMessagesMatchFields(issues[..|issues| - 1]);
    }
  }

  /** The `forEach` that copies each issue's message into the field-error map. */
  method FieldErrors(issues: seq<Issue>) returns (fieldErrors: map<Field, string>)
    ensures fieldErrors == LastMessages(issues)
  {
    fieldErrors := map[];
    var i := 0;
    while i < |issues|
      invariant 0 <= i <= |issues|
      invariant fieldErrors == LastMessages(issues[..i])
    {
      assert issues[..i + 1][..i] == issues[..i];
      fieldErrors := fieldErrors[issues[i].path := issues[i].message];
      i := i + 1;
    }
    assert issues[..|issues|] == issues;
  }

  class Form {
    var documentType: string
    var documentNumber: string
    var errors: map<Field, string>

    /** Every recorded error is a message of that field's rules. */
    ghost predicate Valid()
      reads this
    {
      forall f :: f in errors ==> IsMessageFor(f, errors[f])
    }

    function Contents(): FormData
      reads this
    {
      FormData(documentType, documentNumber)
    }

    /** An empty form with no errors. */
    constructor ()
      ensures Valid()
      ensures documentType == "" && documentNumber == ""
      ensures errors == map[]
    {
      documentType := "";
      documentNumber := "";
      errors := map[];
    }

    /** Replaces one field's value and clears that field's error. */
    method HandleInputChange(field: Field, value: string)
      requires Valid()
      modifies this
      ensures Valid()
      ensures field == DocumentTypeField ==> documentType == value && documentNumber == old(documentNumber)
      ensures field == DocumentNumberField ==> documentNumber == value && documentType == old(documentType)
      ensures errors == old(errors) - {field}
    {
      if field == DocumentTypeField {
        documentType := value;
      } else {
        documentNumber := value;
      }
      if field in errors {
        MessageNonEmpty(field, errors[field]);
      }
      if field in errors && errors[field] != "" {
        errors := errors - {field};
      }
    }

    /** The catch block: validation issues become the error map; anything else changes nothing. */
    method Catch(thrown: Thrown)
      requires Valid()
      requires thrown.ValidationError? ==>
        forall i :: 0 <= i < |thrown.issues| ==> IsMessageFor(thrown.issues[i].path, thrown.issues[i].message)
      modifies this`errors
      ensures Valid()
      ensures thrown.OtherError? ==> errors == old(errors)
      ensures thrown.ValidationError? ==> errors == LastMessages(thrown.issues)
    {
      if thrown.ValidationError? {
        var fieldErrors := FieldErrors(thrown.issues);
        LastMessagesMatchFields(thrown.issues);
        errors := fieldErrors;
      }
    }

    /**
     * Validates the form. On success the errors are cleared and the payload
     * is handed to the submit callback (returned here); otherwise nothing is
     * handed on and each failing field gets its last issue's message.
     */
    method HandleSubmit() returns (submitted: Option<LookupPayload>)
      requires Valid()
      modifies this`errors
      ensures Valid()
      ensures Parse(Contents()).Ok? ==> submitted == Some(Parse(Contents()).value) && errors == map[]
      ensures Parse(Contents()).Err? ==> submitted == None && errors == LastMessages(Issues(Contents()))
    {
      var parsed := Parse(Contents());
      if parsed.Ok? {
        errors := map[];
        submitted := Some(parsed.value);
      } else {
        IssuesMatchFields(Contents());
        Catch(ValidationError(parsed.error));
        submitted := None;
      }
    }

    /** Enter in the number field submits; any other key does nothing. */
    method HandleKeyPress(key: string) returns (submitted: Option<LookupPayload>)
      requires Valid()
      modifies this`errors
      ensures Valid()
      ensures key != "Enter" ==> submitted == None && errors == old(errors)
      ensures key == "Enter" && Parse(Contents()).Ok? ==>
        submitted == Some(Parse(Contents()).value) && errors == map[]
      ensures key == "Enter" && Parse(Contents()).Err? ==>
        submitted == None && errors == LastMessages(Issues(Contents()))
    {
      if key == "Enter" {
        submitted := HandleSubmit();
      } else {
        submitted := None;
      }
    }
  }

  /**
   * After an invalid submit the error map has an entry exactly for each field
   * with an issue, and a field with several issues shows the last one.
   */
  lemma InvalidSubmitErrors(input: FormData, f: Field)
    requires Parse(input).Err?
    ensures f in LastMessages(Issues(input)) <==> |MessagesFor(Issues(input), f)| > 0
    ensures f in LastMessages(Issues(input)) ==>
      LastMessages(Issues(input))[f] == MessagesFor(Issues(input), f)[|MessagesFor(Issues(input), f)| - 1]
  {
    var issues := Issues(input);
    LastMessagesKeys(issues, f);
    MessagesForLast(issues, f);
  }

  /** `MessagesFor` is non-empty exactly when some issue is about `f`, and its last entry is the last such issue's. */
  lemma {:induction false} MessagesForLast(issues: seq<Issue>, f: Field)
    ensures |MessagesFor(issues, f)| > 0 <==> exists i :: 0 <= i < |issues| && issues[i].path == f
    ensures |MessagesFor(issues, f)| > 0 ==>
      f in LastMessages(issues) && LastMessages(issues)[f] == MessagesFor(issues, f)[|MessagesFor(issues, f)| - 1]
  {
    if issues != [] {
      var init := issues[..|issues| - 1];
      var last := issues[|issues| - 1];
      MessagesForConcat(init, [last], f);
      assert init + [last] == issues;
      assert [last][1..] == [];
      MessagesForLast(init, f);
      if exists i :: 0 <= i < |issues| && issues[i].path == f {
        var i :| 0 <= i < |issues| && issues[i].path == f;
        if i < |init| {
          assert init[i].path == f;
        }
      }
      if exists i :: 0 <= i < |init| && init[i].path == f {
        var i :| 0 <= i < |init| && init[i].path == f;
        assert issues[i].path == f;
      }
    }
  }
}
