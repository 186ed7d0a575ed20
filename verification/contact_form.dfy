/** The contact form: per-field validation on the trimmed value, keyed by
    the input's id, and the submit decision. Each input sits in its own
    form group, whose `error` class is the field's `error` flag here. */
module ContactForm {
  import opened JsString

  datatype Field = Field(id: string, value: string, error: bool)

  const NameMin: nat := 2
  const SubjectMin: nat := 5
  const MessageMin: nat := 10

  /** The checks `validateField` applies to an input with this id and value,
      each written as the source writes it: on the trimmed value, whose
      `length` counts UTF-16 code units, with `indexOf(...) === -1` for the
      e-mail characters. */
  predicate Valid(id: string, value: string) {
    var t := Trim(value);
    && (id == "name" ==> !(Length(t) < NameMin))
    && (id == "email" ==> !(IndexOf(t, '@') == -1 || IndexOf(t, '.') == -1))
    && (id == "subject" ==> !(Length(t) < SubjectMin))
    && (id == "message" ==> !(Length(t) < MessageMin))
  }

  datatype Validated = Validated(valid: bool, field: Field)

  /** `validateField(input)`: the verdict, with the group's error marker set
      iff the field is invalid; the input itself is untouched. */
  function ValidateField(f: Field): (r: Validated)
    ensures r.field.id == f.id && r.field.value == f.value
    ensures r.field.error <==> !r.valid
    ensures r.valid <==> Valid(f.id, f.value)
  {
    var ok := Valid(f.id, f.value);
    Validated(ok, f.(error := !ok))
  }

  /** The rules in plain terms: minimum trimmed lengths, in UTF-16 code
      units, of 2, 5 and 10 for
      name, subject and message; an e-mail needs an '@' and a '.' anywhere
      in its trimmed value; any other id is always valid. */
  lemma FieldRules(id: string, value: string)
    ensures id == "name" ==> (Valid(id, value) <==> Length(Trim(value)) >= 2)
    ensures id == "email" ==> (Valid(id, value) <==> '@' in Trim(value) && '.' in Trim(value))
    ensures id == "subject" ==> (Valid(id, value) <==> Length(Trim(value)) >= 5)
    ensures id == "message" ==> (Valid(id, value) <==> Length(Trim(value)) >= 10)
    ensures id !in {"name", "email", "subject", "message"} ==> Valid(id, value)
  {
  }

  /** The `input` listener: re-validates only a field already marked in
      error, so typing can clear an error but never raise one. */
  function OnInput(f: Field): (r: Field)
    ensures !f.error ==> r == f
    ensures f.error ==> (r.error <==> !Valid(f.id, f.value))
    ensures r.error ==> f.error
    ensures r.id == f.id && r.value == f.value
  {
    if f.error then ValidateField(f).field else f
  }

  /** The `blur` listener: validates unconditionally. */
  function OnBlur(f: Field): (r: Field)
    ensures r.id == f.id && r.value == f.value
    ensures r.error <==> !Valid(f.id, f.value)
  {
    ValidateField(f).field
  }

  /** White space typed around a value never changes its verdict. */
  lemma ValidityIgnoresPadding(id: string, pre: string, v: string, post: string)
    requires AllSpace(pre) && AllSpace(post)
    ensures Valid(id, pre + v + post) <==> Valid(id, v)
  {
    TrimIgnoresPadding(pre, v, post);
  }

  /** Sample verdicts for each rule. */
  lemma NameSamples()
    ensures !Valid("name", "A") && Valid("name", "Al") && !Valid("name", " A ")
    ensures Valid("name", "\U{1F600}") && !Valid("name", "\U{00E9}")
  {
    NoSpaceTrims("\U{1F600}");
    NoSpaceTrims("\U{00E9}");
    NoSpaceTrims("A");
    NoSpaceTrims("Al");
    BmpLength("Al");
    ValidityIgnoresPadding("name", " ", "A", " ");
  }

  lemma EmailSamples()
    ensures !Valid("email", "a.b") && !Valid("email", "a@b") && Valid("email", "a@b.c")
    ensures Valid("email", ".@")
  {
    NoSpaceTrims("a.b");
    NoSpaceTrims("a@b");
    NoSpaceTrims("a@b.c");
    NoSpaceTrims(".@");
  }

  lemma SubjectSamples()
    ensures !Valid("subject", "abcd") && Valid("subject", "abcde")
  {
    NoSpaceTrims("abcd");
    NoSpaceTrims("abcde");
  }

  lemma MessageSamples()
    ensures !Valid("message", "123456789") && Valid("message", "1234567890")
    ensures Valid("phone", "")
  {
    NoSpaceTrims("123456789");
    NoSpaceTrims("1234567890");
  }

  /** A string without white space at its ends is its own trim. */
  lemma NoSpaceTrims(s: string)
    requires NoEdgeSpace(s)
    ensures Trim(s) == s
  {
    assert s[0..0 + |s|] == s;
    assert PaddedAt(s, s, 0);
    TrimCharacterized(s, s, 0);
  }

  /** The ids of a sequence of fields, in order. */
  function Ids(fields: seq<Field>): (ids: seq<string>)
    ensures |ids| == |fields|
    ensures forall i :: 0 <= i < |fields| ==> ids[i] == fields[i].id
  {
    if fields == [] then [] else [fields[0].id] + Ids(fields[1..])
  }

  /** The inputs a valid submission reads by id. */
  const SubmittedIds: seq<string> := ["name", "email", "subject", "message"]

  predicate AllPresent(fields: seq<Field>) {
    forall k :: 0 <= k < |SubmittedIds| ==> SubmittedIds[k] in Ids(fields)
  }

  /** How a submit ends: focus on an invalid field, the success message,
      or a `TypeError` when a valid form lacks one of the inputs it reads by
      id, which leaves the form on screen. */
  datatype Outcome = Focus(index: nat) | Submitted | Throws

  /** `handleFormSubmit`: validates every field (no short-circuit), then
      either focuses the first field in error, in document order, or reads
      the four values by id, hides the form and shows the success
      message. */
  method HandleFormSubmit(fields: seq<Field>) returns (out: seq<Field>, outcome: Outcome)
    ensures |out| == |fields|
    ensures forall i :: 0 <= i < |out| ==>
      && out[i].id == fields[i].id && out[i].value == fields[i].value
      && (out[i].error <==> !Valid(fields[i].id, fields[i].value))
    ensures outcome.Submitted? <==>
      (forall i :: 0 <= i < |fields| ==> Valid(fields[i].id, fields[i].value)) && AllPresent(fields)
    ensures outcome.Throws? <==>
      (forall i :: 0 <= i < |fields| ==> Valid(fields[i].id, fields[i].value)) && !AllPresent(fields)
    ensures outcome.Focus? ==>
      && outcome.index < |fields|
      && !Valid(fields[outcome.index].id, fields[outcome.index].value)
      && forall j :: 0 <= j < outcome.index ==> Valid(fields[j].id, fields[j].value)
  {
    out := [];
    var formValid := true;
    var i := 0;
    while i < |fields|
      invariant 0 <= i <= |fields| && |out| == i
      invariant forall k :: 0 <= k < i ==>
        && out[k].id == fields[k].id && out[k].value == fields[k].value
        && (out[k].error <==> !Valid(fields[k].id, fields[k].value))
      invariant formValid <==> forall k :: 0 <= k < i ==> Valid(fields[k].id, fields[k].value)
    {
      var v := ValidateField(fields[i]);
      if !v.valid {
        formValid := false;
      }
      out := out + [v.field];
      i := i + 1;
    }
    if formValid {
      outcome := if AllPresent(fields) then Submitted else Throws;
      return;
    }
    // The first input whose group carries the error marker.
    var k := 0;
    while k < |out| && !out[k].error
      invariant 0 <= k <= |out|
      invariant forall j :: 0 <= j < k ==> !out[j].error
    {
      k := k + 1;
    }
    outcome := Focus(k);
  }
}
