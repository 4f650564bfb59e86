// Adjusting a scraped Google Form for display (src/lib/google-form.ts): a title and
// description header is inserted among the fields and the input fields are numbered.

module GoogleForm {
  import opened Wrappers
  import opened FormTypes

  datatype EmailOptions = EmailNone | EmailVerified | EmailInput

  /** The scraped form.  Its `questions` array is the one the adjustment splices into
      and numbers, so the caller sees the change. */
  class Form {
    var filename: string
    var formUrl: string
    var formAction: string
    var headerImageUrl: Option<string>
    var title: string
    var description: Option<string>
    var collectEmails: EmailOptions
    var questions: seq<Question>

    constructor (filename: string, formUrl: string, formAction: string,
                 headerImageUrl: Option<string>, title: string, description: Option<string>,
                 collectEmails: EmailOptions, questions: seq<Question>)
      ensures this.filename == filename && this.formUrl == formUrl
      ensures this.formAction == formAction && this.headerImageUrl == headerImageUrl
      ensures this.title == title && this.description == description
      ensures this.collectEmails == collectEmails && this.questions == questions
    {
      this.filename := filename;
      this.formUrl := formUrl;
      this.formAction := formAction;
      this.headerImageUrl := headerImageUrl;
      this.title := title;
      this.description := description;
      this.collectEmails := collectEmails;
      this.questions := questions;
    }
  }

  /** The adjusted form handed to the page. */
  datatype AdjustedForm = AdjustedForm(
    formUrl: string,
    formAction: string,
    headerImageUrl: Option<string>,
    title: string,
    collectEmails: EmailOptions,
    hasInput: bool,
    hasRequired: bool,
    fields: seq<Question>)

  // ---------------------------------------------------------------------------
  // Specification
  // ---------------------------------------------------------------------------

  /** The header goes after a leading image or video, otherwise first. */
  function InsertIndex(questions: seq<Question>): (i: nat)
    ensures i <= |questions|
  {
    if |questions| > 0 && (questions[0].qtype == Image || questions[0].qtype == Video) then 1
    else 0
  }

  function Header(title: string, description: Option<string>): Question {
    Question(0, title, description, TitleAndDescription, [], false, "", None)
  }

  function WithHeader(questions: seq<Question>, title: string, description: Option<string>)
    : seq<Question>
  {
    var i := InsertIndex(questions);
    questions[..i] + [Header(title, description)] + questions[i..]
  }

  predicate IsInputType(t: QuestionType) {
    t == Text || t == ParagraphText || t == MultipleChoice || t == Dropdown || t == Checkboxes
  }

  /** The number of input fields in `fields`. */
  function InputCount(fields: seq<Question>): nat
    decreases |fields|
  {
    if |fields| == 0 then 0
    else InputCount(fields[..|fields| - 1]) + (if IsInputType(fields[|fields| - 1].qtype) then 1 else 0)
  }

  /** Some input field of `fields` is required. */
  predicate RequiredInput(fields: seq<Question>)
    decreases |fields|
  {
    if |fields| == 0 then false
    else
      var last := fields[|fields| - 1];
      RequiredInput(fields[..|fields| - 1]) || (IsInputType(last.qtype) && last.required)
  }

  /** Field `j` after numbering: an input field carries one more than the number of input
      fields before it; any other field is untouched. */
  function NumberedAt(fields: seq<Question>, j: nat): Question
    requires j < |fields|
  {
    if IsInputType(fields[j].qtype) then fields[j].(inputIndex := Some(InputCount(fields[..j]) + 1))
    else fields[j]
  }

  function Numbered(fields: seq<Question>): seq<Question> {
    seq(|fields|, j requires 0 <= j < |fields| => NumberedAt(fields, j))
  }

  function AdjustedFields(questions: seq<Question>, title: string, description: Option<string>)
    : seq<Question>
  {
    Numbered(WithHeader(questions, title, description))
  }

  // ---------------------------------------------------------------------------
  // The operation
  // ---------------------------------------------------------------------------

  /** `adjustGoogleFormData` */
  method AdjustGoogleFormData(json: Form) returns (r: AdjustedForm)
    modifies json
    ensures r.fields == AdjustedFields(old(json.questions), old(json.title), old(json.description))
    ensures json.questions == r.fields
    ensures r.hasInput <==> exists k :: 0 <= k < |r.fields| && IsInputType(r.fields[k].qtype)
    ensures r.hasRequired <==>
      exists k :: 0 <= k < |r.fields| && IsInputType(r.fields[k].qtype) && r.fields[k].required
    ensures r.formUrl == json.formUrl && r.formAction == json.formAction
    ensures r.headerImageUrl == json.headerImageUrl && r.title == json.title
    ensures r.collectEmails == json.collectEmails
    ensures json.filename == old(json.filename) && json.title == old(json.title)
    ensures json.description == old(json.description) && json.formUrl == old(json.formUrl)
    ensures json.formAction == old(json.formAction)
    ensures json.headerImageUrl == old(json.headerImageUrl)
    ensures json.collectEmails == old(json.collectEmails)
  {
    var insertIndex := InsertIndex(json.questions);
    json.questions := json.questions[..insertIndex] +
      [Question(0, json.title, json.description, TitleAndDescription, [], false, "", None)] +
      json.questions[insertIndex..];
    assert json.questions == WithHeader(old(json.questions), json.title, json.description);
    ghost var spliced := json.questions;
    var hasInput, hasRequired := NumberInputs(json);
    InputCountPositive(spliced);
    RequiredInputExists(spliced);
    NumberedKeepsFields(spliced);
    r := AdjustedForm(json.formUrl, json.formAction, json.headerImageUrl, json.title,
                      json.collectEmails, hasInput, hasRequired, json.questions);
  }

  /** The `forEach` pass: numbers the input fields in place and notes whether there is
      an input field and whether one is required. */
  method NumberInputs(json: Form) returns (hasInput: bool, hasRequired: bool)
    modifies json
    ensures json.questions == Numbered(old(json.questions))
    ensures hasInput <==> InputCount(old(json.questions)) > 0
    ensures hasRequired <==> RequiredInput(old(json.questions))
    ensures json.filename == old(json.filename) && json.title == old(json.title)
    ensures json.description == old(json.description) && json.formUrl == old(json.formUrl)
    ensures json.formAction == old(json.formAction)
    ensures json.headerImageUrl == old(json.headerImageUrl)
    ensures json.collectEmails == old(json.collectEmails)
  {
    var questions, inputs, required := NumberedQuestions(json.questions);
    json.questions := questions;
    hasInput := inputs;
    hasRequired := required;
  }

  /** The loop of the `forEach` pass over the form's fields. */
  method NumberedQuestions(fields: seq<Question>) returns (questions: seq<Question>, hasInput: bool, hasRequired: bool)
    ensures questions == Numbered(fields)
    ensures hasInput <==> InputCount(fields) > 0
    ensures hasRequired <==> RequiredInput(fields)
  {
    questions := fields;
    hasInput := false;
    hasRequired := false;
    var inputIndex := 1;
    for k := 0 to |questions|
      invariant |questions| == |fields|
      invariant forall j :: 0 <= j < k ==> questions[j] == NumberedAt(fields, j)
      invariant forall j :: k <= j < |fields| ==> questions[j] == fields[j]
      invariant inputIndex == InputCount(fields[..k]) + 1
      invariant hasInput <==> InputCount(fields[..k]) > 0
      invariant hasRequired <==> RequiredInput(fields[..k])
    {
      InputCountStep(fields, k);
      var isInput, isRequired;
      questions, inputIndex, isInput, isRequired := NumberField(fields, questions, k, inputIndex);
      hasInput := hasInput || isInput;
      hasRequired := hasRequired || isRequired;
    }
    assert fields[..|fields|] == fields;
    assert questions == Numbered(fields);
  }

  /** One field of the `forEach` pass: an input field gets the next number. */
  method NumberField(fields: seq<Question>, questions: seq<Question>, k: nat, inputIndex: int)
    returns (numbered: seq<Question>, next: int, isInput: bool, isRequired: bool)
    requires k < |fields| == |questions| && questions[k] == fields[k]
    requires inputIndex == InputCount(fields[..k]) + 1
    ensures numbered == questions[k := NumberedAt(fields, k)]
    ensures next == inputIndex + (if IsInputType(fields[k].qtype) then 1 else 0)
    ensures isInput == IsInputType(fields[k].qtype) && isRequired == (isInput && fields[k].required)
  {
    var field := questions[k];
    numbered, next, isInput, isRequired := questions, inputIndex, false, false;
    if IsInputType(field.qtype) {
      isInput := true;
      numbered := questions[k := field.(inputIndex := Some(inputIndex))];
      next := inputIndex + 1;
      if field.required {
        isRequired := true;
      }
    }
  }

  // ---------------------------------------------------------------------------
  // Properties
  // ---------------------------------------------------------------------------

  /** Numbering changes no field but `inputIndex`, and keeps every type and flag. */
  lemma NumberedKeepsFields(fields: seq<Question>)
    ensures |Numbered(fields)| == |fields|
    ensures forall j :: 0 <= j < |fields| ==>
      Numbered(fields)[j].(inputIndex := fields[j].inputIndex) == fields[j]
  {
  }

  /** One field more than the form had questions; the header is at index 1 after a
      leading image or video and at index 0 otherwise; the other questions keep their
      order around it. */
  lemma HeaderPlacement(questions: seq<Question>, title: string, description: Option<string>)
    ensures var fields := WithHeader(questions, title, description);
      var i := InsertIndex(questions);
      |fields| == |questions| + 1 &&
      fields[i] == Header(title, description) &&
      (i == 1 <==> |questions| > 0 && (questions[0].qtype == Image || questions[0].qtype == Video)) &&
      fields[..i] == questions[..i] && fields[i + 1..] == questions[i..]
  {
    var fields := WithHeader(questions, title, description);
    var i := InsertIndex(questions);
    assert fields[i + 1..] == questions[i..];
  }

  /** The header is not an input field, so it gets no number. */
  lemma HeaderNotNumbered(questions: seq<Question>, title: string, description: Option<string>)
    ensures var i := InsertIndex(questions);
      AdjustedFields(questions, title, description)[i] == Header(title, description)
  {
    HeaderPlacement(questions, title, description);
  }

  lemma {:induction false} InputCountMonotone(fields: seq<Question>, j: nat, k: nat)
    requires j <= k <= |fields|
    ensures InputCount(fields[..j]) <= InputCount(fields[..k])
    decreases k - j
  {
    if j < k {
      InputCountMonotone(fields, j, k - 1);
      assert fields[..k][..k - 1] == fields[..k - 1];
    }
  }

  lemma InputCountStep(fields: seq<Question>, k: nat)
    requires k < |fields|
    ensures InputCount(fields[..k + 1]) ==
      InputCount(fields[..k]) + (if IsInputType(fields[k].qtype) then 1 else 0)
    ensures RequiredInput(fields[..k + 1]) ==
      (RequiredInput(fields[..k]) || (IsInputType(fields[k].qtype) && fields[k].required))
  {
    assert fields[..k + 1][..k] == fields[..k];
  }

  /** The input fields are numbered in order: a later input field has a larger number. */
  lemma NumberingIncreasing(fields: seq<Question>, j: nat, k: nat)
    requires j < k < |fields|
    requires IsInputType(fields[j].qtype) && IsInputType(fields[k].qtype)
    ensures Numbered(fields)[j].inputIndex.value < Numbered(fields)[k].inputIndex.value
  {
    InputCountStep(fields, j);
    InputCountMonotone(fields, j + 1, k);
  }

  /** The numbers used are exactly 1..n, for n the number of input fields: every input
      field's number is in that range, and each number in it labels some input field. */
  lemma {:induction false} NumberingOnto(fields: seq<Question>, n: nat)
    requires 1 <= n <= InputCount(fields)
    ensures exists k :: (0 <= k < |fields| && IsInputType(fields[k].qtype) &&
      Numbered(fields)[k].inputIndex == Some(n))
    decreases |fields|
  {
    var last := |fields| - 1;
    var init := fields[..last];
    if n <= InputCount(init) {
      NumberingOnto(init, n);
      var k :| 0 <= k < |init| && IsInputType(init[k].qtype) &&
        Numbered(init)[k].inputIndex == Some(n);
      assert init[..k] == fields[..k];
      assert Numbered(fields)[k].inputIndex == Some(n);
    } else {
      assert fields[..last] == init;
      assert Numbered(fields)[last].inputIndex == Some(n);
    }
  }

  lemma NumberingInRange(fields: seq<Question>, k: nat)
    requires k < |fields| && IsInputType(fields[k].qtype)
    ensures 1 <= Numbered(fields)[k].inputIndex.value <= InputCount(fields)
  {
    InputCountStep(fields, k);
    InputCountMonotone(fields, k + 1, |fields|);
    assert fields[..|fields|] == fields;
  }

  /** There is an input field exactly when the input count is positive. */
  lemma {:induction false} InputCountPositive(fields: seq<Question>)
    ensures InputCount(fields) > 0 <==> exists k :: 0 <= k < |fields| && IsInputType(fields[k].qtype)
    decreases |fields|
  {
    if |fields| > 0 {
      var init := fields[..|fields| - 1];
      InputCountPositive(init);
      if exists k :: 0 <= k < |init| && IsInputType(init[k].qtype) {
        var k :| 0 <= k < |init| && IsInputType(init[k].qtype);
        assert fields[k] == init[k];
      }
      if exists k :: 0 <= k < |fields| && IsInputType(fields[k].qtype) {
        var k :| 0 <= k < |fields| && IsInputType(fields[k].qtype);
        if k < |init| {
          assert init[k] == fields[k];
        }
      }
    }
  }

  /** The prefix test for a required input field is the existential one. */
  lemma {:induction false} RequiredInputExists(fields: seq<Question>)
    ensures RequiredInput(fields) <==>
      exists k :: 0 <= k < |fields| && IsInputType(fields[k].qtype) && fields[k].required
    decreases |fields|
  {
    if |fields| > 0 {
      var init := fields[..|fields| - 1];
      RequiredInputExists(init);
      if exists k :: 0 <= k < |init| && IsInputType(init[k].qtype) && init[k].required {
        var k :| 0 <= k < |init| && IsInputType(init[k].qtype) && init[k].required;
        assert fields[k] == init[k];
      }
      if exists k :: 0 <= k < |fields| && IsInputType(fields[k].qtype) && fields[k].required {
        var k :| 0 <= k < |fields| && IsInputType(fields[k].qtype) && fields[k].required;
        if k < |init| {
          assert init[k] == fields[k];
        }
      }
    }
  }

  /** `hasRequired` counts only input fields: a required header, image or other
      non-input field does not set it. */
  lemma RequiredNeedsInput(fields: seq<Question>)
    requires forall k :: 0 <= k < |fields| && fields[k].required ==> !IsInputType(fields[k].qtype)
    ensures !exists k :: (0 <= k < |Numbered(fields)| &&
      IsInputType(Numbered(fields)[k].qtype) && Numbered(fields)[k].required)
  {
  }
}
