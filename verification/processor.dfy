/**
 The worker's document processing: `process_document` extracts and
 validates the numeric fields of a payload, only warns when validation
 fails, and hands the payload to the storage step `ingest_document`, which
 is a parameter here; `process_batch` processes every document and tallies
 the results.
 */
module Processor {
  import opened Wrappers
  import opened FieldExtraction
  import opened FieldValidation
  import Counting

  /** The payload's `"content"` entry: missing, a string, or some other value. */
  datatype ContentEntry = Missing | Text(text: string) | NotText

  /** A document payload. Only the content is read by the processor; the
      rest of the payload is passed on unchanged. */
  datatype Document = Document(title: Option<string>, content: ContentEntry, metadata: map<string, string>)

  /** What awaiting `ingest_document` gives: a dictionary, some other value,
      or a raised exception. Dictionary entries that are not strings are
      represented by strings other than "success". */
  datatype Outcome = Record(entries: map<string, string>) | NotRecord | Raised(message: string)

  /** The outcome of `process_document`, with the warning it logged, if any. */
  datatype Processed = Processed(warning: Option<seq<FieldError>>, outcome: Outcome)

  /** The text the fields are extracted from, or an error when the payload's
      content is not a string (the regular expression search raises). */
  function ContentOf(doc: Document): Result<string, string> {
    match doc.content
    case Missing => Success("")
    case Text(t) => Success(t)
    case NotText => Failure("expected string or bytes-like object")
  }

  /** The outcome processing reaches: a raise when the content is not a
      string, and otherwise whatever `ingest_document` gives. */
  function OutcomeOf(doc: Document, ingest: Document -> Outcome): Outcome {
    match ContentOf(doc)
    case Failure(message) => Raised(message)
    case Success(_) => ingest(doc)
  }

  /** `process_document`: a failed validation is logged and processing goes
      on; the outcome is what `ingest_document` gives, and a content that is
      not a string raises before ingestion. */
  function ProcessDocument(doc: Document, ingest: Document -> Outcome): (p: Processed)
    ensures p.outcome == OutcomeOf(doc, ingest)
    ensures !doc.content.NotText? ==> p.outcome == ingest(doc)
    ensures doc.content.NotText? ==> p.outcome.Raised? && p.warning.None?
    ensures p.warning.Some? ==> p.warning.value != []
  {
    match ContentOf(doc)
    case Failure(message) => Processed(None, Raised(message))
    case Success(content) =>
      var check := Validate(Extract(content));
      Processed(if check.valid then None else Some(check.errors), ingest(doc))
  }

  /** The warning branch is never taken: the extractor's values always
      validate, so processing never logs a validation warning. */
  lemma ProcessDocumentNeverWarns(doc: Document, ingest: Document -> Outcome)
    ensures ProcessDocument(doc, ingest).warning.None?
  {
    match ContentOf(doc)
    case Failure(_) =>
    case Success(content) => ExtractedFieldsValidate(content);
  }

  /** A result counts as successful when it is a dictionary whose "status" is "success". */
  predicate IsSuccess(o: Outcome) {
    o.Record? && "status" in o.entries && o.entries["status"] == "success"
  }

  predicate IsNotSuccess(o: Outcome) {
    !IsSuccess(o)
  }

  /** The dictionary `process_batch` returns. */
  datatype BatchSummary = BatchSummary(total: nat, successful: nat, failed: nat, results: seq<Outcome>)

  /** The tally of gathered results: `successful` counts the successful
      ones and `failed` is the rest. */
  function Tally(results: seq<Outcome>): (b: BatchSummary)
    ensures b.total == |results| && b.results == results
    ensures b.successful == Counting.CountWhere(results, IsSuccess)
    ensures b.failed == Counting.CountWhere(results, IsNotSuccess)
    ensures b.successful + b.failed == b.total
  {
    var successful := Counting.CountWhere(results, IsSuccess);
    Counting.CountComplement(results, IsSuccess, IsNotSuccess);
    BatchSummary(|results|, successful, |results| - successful, results)
  }

  /** `process_batch`: the documents are processed in input order (gathering
      keeps the order and turns exceptions into results), then tallied.
      Result `i` is the outcome of `process_document` on document `i`
      (see `ProcessDocument`'s contract). */
  method ProcessBatch(docs: seq<Document>, ingest: Document -> Outcome) returns (b: BatchSummary)
    ensures b.total == |docs| && |b.results| == |docs|
    ensures forall i :: 0 <= i < |docs| ==> b.results[i] == OutcomeOf(docs[i], ingest)
    ensures b.successful == Counting.CountWhere(b.results, IsSuccess)
    ensures b.failed == Counting.CountWhere(b.results, IsNotSuccess)
    ensures b.successful + b.failed == b.total
  {
    var results: seq<Outcome> := [];
    var i := 0;
    while i < |docs|
      invariant i <= |docs| && |results| == i
      invariant forall k :: 0 <= k < i ==> results[k] == OutcomeOf(docs[k], ingest)
    {
      results := results + [OutcomeOf(docs[i], ingest)];
      i := i + 1;
    }
    b := Tally(results);
  }

  /** The successful results are exactly the documents whose ingestion
      returned a successful record. */
  lemma SuccessfulAreIngested(docs: seq<Document>, ingest: Document -> Outcome, b: BatchSummary)
    requires |b.results| == |docs|
    requires forall i :: 0 <= i < |docs| ==> b.results[i] == OutcomeOf(docs[i], ingest)
    requires b.successful == Counting.CountWhere(b.results, IsSuccess)
    ensures b.successful == |Counting.IndicesWhere(b.results, IsSuccess)|
    ensures forall i :: 0 <= i < |docs| ==>
      (i in Counting.IndicesWhere(b.results, IsSuccess) <==> !docs[i].content.NotText? && IsSuccess(ingest(docs[i])))
  {
    Counting.CountIsIndexCount(b.results, IsSuccess);
  }
}
