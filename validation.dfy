/**
 * The form schema: the document type must be one of four tags, the document
 * number at least five characters and made of ASCII letters and digits only.
 * Both fields are checked, both number rules are checked, and the issues come
 * out in schema order: the type first, then the length rule, then the
 * character rule.
 */
module Validation {
  import opened Wrappers
  import opened Types

  /** The two fields of the form; an issue's path names one of them. */
  datatype Field = DocumentTypeField | DocumentNumberField

  /** One failed rule: the field it is about and its message. */
  datatype Issue = Issue(path: Field, message: string)

  /** The raw form contents, before validation: two arbitrary strings. */
  datatype FormData = FormData(documentType: string, documentNumber: string)

  const MinLength: nat := 5
  const MinLengthMessage := "Document number must be at least 5 characters"
  const CharsetMessage := "Document number can only contain letters and numbers"
  /** The start of the enum rule's message; the rejected value and a quote follow. */
  const EnumPrefix := "Invalid enum value. Expected 'CC' | 'CE' | 'NIT' | 'PASSPORT', received '"

  function EnumMessage(received: string): string {
    EnumPrefix + received + "'"
  }

  predicate IsAsciiAlnum(c: char) {
    'A' <= c <= 'Z' || 'a' <= c <= 'z' || '0' <= c <= '9'
  }

  /**
   * The pattern `^[A-Za-z0-9]+$` without flags: one or more letters or digits
   * from the first character to the last, so nothing else may appear anywhere,
   * a trailing line break included.
   */
  predicate MatchesPattern(s: string) {
    |s| > 0 && forall i :: 0 <= i < |s| ==> IsAsciiAlnum(s[i])
  }

  function DocumentTypeIssues(s: string): seq<Issue> {
    if ParseDocumentType(s).Some? then [] else [Issue(DocumentTypeField, EnumMessage(s))]
  }

  /** The length rule and the character rule, each checked whatever the other says. */
  function DocumentNumberIssues(s: string): seq<Issue> {
    (if |s| < MinLength then [Issue(DocumentNumberField, MinLengthMessage)] else [])
    + (if MatchesPattern(s) then [] else [Issue(DocumentNumberField, CharsetMessage)])
  }

  /** The issues of the whole form, in schema order. */
  function Issues(input: FormData): seq<Issue> {
    DocumentTypeIssues(input.documentType) + DocumentNumberIssues(input.documentNumber)
  }

  /** What a validated payload guarantees about its number. */
  predicate ValidPayload(p: LookupPayload) {
    |p.documentNumber| >= MinLength && MatchesPattern(p.documentNumber)
  }

  /** Validates the form: the payload when every rule holds, else the ordered issues. */
  function Parse(input: FormData): (r: Result<LookupPayload, seq<Issue>>)
    ensures r.Ok? <==>
      && ParseDocumentType(input.documentType).Some?
      && |input.documentNumber| >= MinLength
      && MatchesPattern(input.documentNumber)
    ensures r.Ok? ==>
      && ValidPayload(r.value)
      && Tag(r.value.documentType) == input.documentType
      && r.value.documentNumber == input.documentNumber
    ensures r.Err? ==> r.error == Issues(input) && |r.error| > 0
  {
    var issues := Issues(input);
    if issues == [] then
      Ok(LookupPayload(ParseDocumentType(input.documentType).value, input.documentNumber))
    else
      Err(issues)
  }

  /** The messages of the issues about field `f`, in order. */
  function MessagesFor(issues: seq<Issue>, f: Field): seq<string> {
    if issues == [] then []
    else (if issues[0].path == f then [issues[0].message] else []) + MessagesFor(issues[1..], f)
  }

  lemma {:induction false} MessagesForConcat(a: seq<Issue>, b: seq<Issue>, f: Field)
    ensures MessagesFor(a + b, f) == MessagesFor(a, f) + MessagesFor(b, f)
  {
    if a != [] {
      assert (a + b)[1..] == a[1..] + b;
      MessagesForConcat(a[1..], b, f);
    } else {
      assert a + b == b;
    }
  }

  /**
   * The number's messages: the length message exactly when it is short, then
   * the character message exactly when the pattern fails; the type does not
   * matter.
   */
  lemma DocumentNumberMessages(input: FormData)
    ensures MessagesFor(Issues(input), DocumentNumberField) ==
      (if |input.documentNumber| < MinLength then [MinLengthMessage] else [])
      + (if MatchesPattern(input.documentNumber) then [] else [CharsetMessage])
  {
    MessagesForConcat(DocumentTypeIssues(input.documentType), DocumentNumberIssues(input.documentNumber), DocumentNumberField);
    var s := input.documentNumber;
    var a := if |s| < MinLength then [Issue(DocumentNumberField, MinLengthMessage)] else [];
    var b := if MatchesPattern(s) then [] else [Issue(DocumentNumberField, CharsetMessage)];
    MessagesForConcat(a, b, DocumentNumberField);
  }

  /** The type's messages: one enum message exactly when the type is not a tag; the number does not matter. */
  lemma DocumentTypeMessages(input: FormData)
    ensures MessagesFor(Issues(input), DocumentTypeField) ==
      if ParseDocumentType(input.documentType).Some? then [] else [EnumMessage(input.documentType)]
  {
    var s := input.documentNumber;
    var a := if |s| < MinLength then [Issue(DocumentNumberField, MinLengthMessage)] else [];
    var b := if MatchesPattern(s) then [] else [Issue(DocumentNumberField, CharsetMessage)];
    MessagesForConcat(a, b, DocumentTypeField);
    MessagesForConcat(DocumentTypeIssues(input.documentType), DocumentNumberIssues(s), DocumentTypeField);
  }

  /** An error in one field does not change what is reported for the other. */
  lemma FieldsCheckedIndependently(a: FormData, b: FormData)
    ensures a.documentNumber == b.documentNumber ==>
      MessagesFor(Issues(a), DocumentNumberField) == MessagesFor(Issues(b), DocumentNumberField)
    ensures a.documentType == b.documentType ==>
      MessagesFor(Issues(a), DocumentTypeField) == MessagesFor(Issues(b), DocumentTypeField)
  {
    DocumentNumberMessages(a);
    DocumentNumberMessages(b);
    DocumentTypeMessages(a);
    DocumentTypeMessages(b);
  }

  /** The character rule fails exactly on the empty string and on any character outside [A-Za-z0-9]. */
  lemma CharsetRule(s: string)
    ensures !MatchesPattern(s) <==> s == [] || exists i :: 0 <= i < |s| && !IsAsciiAlnum(s[i])
  {
  }

  /** The pattern has no multiline flag, so a number followed by a line break is rejected. */
  lemma TrailingNewlineRejected(s: string)
    ensures !MatchesPattern(s + "\n")
    ensures MessagesFor(Issues(FormData("CC", s + "\n")), DocumentNumberField) ==
      (if |s| + 1 < MinLength then [MinLengthMessage] else []) + [CharsetMessage]
  {
    assert (s + "\n")[|s|] == '\n';
    DocumentNumberMessages(FormData("CC", s + "\n"));
  }

  /** A short number with a bad character draws both messages, the length one first. */
  lemma ShortAndBadCharacter()
    ensures MessagesFor(Issues(FormData("CC", "ab!")), DocumentNumberField) == [MinLengthMessage, CharsetMessage]
    ensures Parse(FormData("CC", "ab")).Err?
  {
    assert !IsAsciiAlnum("ab!"[2]);
    DocumentNumberMessages(FormData("CC", "ab!"));
  }

  /** A valid type and five letters and digits are accepted unchanged. */
  lemma AcceptsWellFormedInput()
    ensures Parse(FormData("CC", "AB123")) == Ok(LookupPayload(CC, "AB123"))
  {
    assert MatchesPattern("AB123");
  }

  /** Every message lands under the field whose rule produced it. */
  predicate IsMessageFor(f: Field, message: string) {
    match f
    case DocumentTypeField => |message| > |EnumPrefix| && message[..|EnumPrefix|] == EnumPrefix
    case DocumentNumberField => message == MinLengthMessage || message == CharsetMessage
  }

  lemma IssuesMatchFields(input: FormData)
    ensures forall i :: 0 <= i < |Issues(input)| ==> IsMessageFor(Issues(input)[i].path, Issues(input)[i].message)
  {
    var s := input.documentType;
    assert (EnumPrefix + s + "'")[..|EnumPrefix|] == EnumPrefix;
  }

  /** No message of the schema is empty, so a recorded message always reads as present. */
  lemma MessageNonEmpty(f: Field, message: string)
    requires IsMessageFor(f, message)
    ensures message != ""
  {
  }
}
