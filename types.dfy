/**
 * The shapes shared by the validator, the simulated lookup and the pages:
 * the document type tag, the validated payload and the lookup result.
 */
module Types {
  import opened Wrappers

  /** The four document kinds the form offers. */
  datatype DocumentType = CC | CE | NIT | PASSPORT

  /** The string literal that stands for each document type. */
  function Tag(d: DocumentType): string {
    match d
    case CC => "CC"
    case CE => "CE"
    case NIT => "NIT"
    case PASSPORT => "PASSPORT"
  }

  /** The document type a string literal stands for, if any. */
  function ParseDocumentType(s: string): (r: Option<DocumentType>)
    ensures r.Some? ==> Tag(r.value) == s
  {
    if s == "CC" then Some(CC)
    else if s == "CE" then Some(CE)
    else if s == "NIT" then Some(NIT)
    else if s == "PASSPORT" then Some(PASSPORT)
    else None
  }

  /** Every document type reads back from its tag. */
  lemma ParseTag(d: DocumentType)
    ensures ParseDocumentType(Tag(d)) == Some(d)
  {
  }

  /** Exactly four strings name a document type; everything else, "" included, does not. */
  lemma DocumentTypeTags(s: string)
    ensures ParseDocumentType(s).Some? <==> s == "CC" || s == "CE" || s == "NIT" || s == "PASSPORT"
    ensures ParseDocumentType("") == None
  {
  }

  /** The input the lookup receives once the form has validated it. */
  datatype LookupPayload = LookupPayload(documentType: DocumentType, documentNumber: string)

  datatype AdditionalInfo = AdditionalInfo(region: string, status: string, verificationLevel: string)

  /** The `details` record a successful lookup fills in. */
  datatype Details = Details(
    documentType: DocumentType,
    documentNumber: string,
    verified: bool,
    lastUpdated: string,
    additionalInfo: AdditionalInfo)

  /** The optional `data` part of a result. */
  datatype ResultData = ResultData(status: string, message: string, details: Option<Details>)

  /** The optional `error` part of a result. */
  datatype ErrorInfo = ErrorInfo(code: string, message: string)

  /** A lookup result; `data` and `error` are optional fields. */
  datatype LookupResult = LookupResult(
    success: bool,
    reference: string,
    timestamp: string,
    query: LookupPayload,
    data: Option<ResultData>,
    error: Option<ErrorInfo>)

  /**
   * The type leaves `data` and `error` independent of `success`; a
   * well-formed result has `data` exactly when it succeeded and `error`
   * exactly when it failed.
   */
  predicate WellFormed(r: LookupResult) {
    if r.success then r.data.Some? && r.error.None? else r.error.Some? && r.data.None?
  }

  /** In a well-formed result exactly one of `data` and `error` is present, and `success` tells which. */
  lemma WellFormedExactlyOne(r: LookupResult)
    requires WellFormed(r)
    ensures r.data.Some? != r.error.Some?
    ensures r.success <==> r.data.Some?
  {
  }
}
