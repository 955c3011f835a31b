/**
 `_validate_numeric_fields`: one error per negative field, in the order of
 the field dictionary, and a verdict that is valid exactly when there is no
 error. The validator accepts any field list, not only the extractor's
 output, so its error path is part of the model.
 */
module FieldValidation {
  import opened FieldExtraction
  import Counting

  /** The message `"<name> is negative: <value>"`, kept as its two parts. */
  datatype FieldError = NegativeValue(name: string, value: real)

  /** The dictionary `{"valid": ..., "errors": [...]}`. */
  datatype Validation = Validation(valid: bool, errors: seq<FieldError>)

  predicate IsNegative(f: Field) {
    f.value < 0.0
  }

  /** The error list the loop over the fields builds. */
  function NegativeErrors(fields: seq<Field>): (errs: seq<FieldError>)
    ensures |errs| == Counting.CountWhere(fields, IsNegative)
  {
    if fields == [] then []
    else
      var last := fields[|fields| - 1];
      var before := NegativeErrors(fields[..|fields| - 1]);
      if last.value < 0.0 then before + [NegativeValue(last.name, last.value)] else before
  }

  /** Every error names a negative field of the list, with its value. */
  lemma {:induction false} NegativeErrorsSound(fields: seq<Field>)
    ensures forall k :: 0 <= k < |NegativeErrors(fields)| ==>
      var e := NegativeErrors(fields)[k];
      e.value < 0.0 && Field(e.name, e.value) in fields
  {
    if fields != [] {
      var init := fields[..|fields| - 1];
      NegativeErrorsSound(init);
      assert forall f :: f in init ==> f in fields;
    }
  }

  /** Every negative field has its error. */
  lemma {:induction false} NegativeErrorsComplete(fields: seq<Field>)
    ensures forall a :: 0 <= a < |fields| && fields[a].value < 0.0 ==>
      NegativeValue(fields[a].name, fields[a].value) in NegativeErrors(fields)
  {
    if fields != [] {
      var init := fields[..|fields| - 1];
      NegativeErrorsComplete(init);
      assert forall a :: 0 <= a < |init| ==> init[a] == fields[a];
    }
  }

  /** The errors of a concatenation are the errors of each part, in order:
      the error list follows the order of the fields. */
  lemma {:induction false} NegativeErrorsAppend(a: seq<Field>, b: seq<Field>)
    ensures NegativeErrors(a + b) == NegativeErrors(a) + NegativeErrors(b)
    decreases |b|
  {
    if b == [] {
      assert a + b == a;
    } else {
      var n := |b| - 1;
      assert (a + b)[..|a + b| - 1] == a + b[..n];
      assert (a + b)[|a + b| - 1] == b[n];
      NegativeErrorsAppend(a, b[..n]);
    }
  }

  /** `_validate_numeric_fields`. */
  function Validate(fields: seq<Field>): (v: Validation)
    ensures v.valid <==> v.errors == []
    ensures v.valid <==> forall a :: 0 <= a < |fields| ==> fields[a].value >= 0.0
    ensures |v.errors| == Counting.CountWhere(fields, IsNegative)
  {
    var errors := NegativeErrors(fields);
    Validation(|errors| == 0, errors)
  }

  /** The extractor's output always validates: the pattern has no sign, so
      no extracted value is negative. */
  lemma ExtractedFieldsValidate(content: string)
    ensures Validate(Extract(content)) == Validation(true, [])
  {
  }

  /** The error branch: a negative total gives exactly one error naming it. */
  lemma NegativeTotalRejected(v: real)
    requires v < 0.0
    ensures Validate([Field("total", v), Field("count", 3.0)]) == Validation(false, [NegativeValue("total", v)])
  {
    NegativeErrorsAppend([Field("total", v)], [Field("count", 3.0)]);
    assert [Field("total", v)] + [Field("count", 3.0)] == [Field("total", v), Field("count", 3.0)];
  }
}
