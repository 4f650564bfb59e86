// Form field records shared by the form-side cores (src/lib/index.ts).

module FormTypes {
  import opened Wrappers

  /** The kinds of Google Forms items. */
  datatype QuestionType =
    | Text | ParagraphText | MultipleChoice | Checkboxes | Dropdown | Date | Time | Scale
    | TitleAndDescription | Grid | PageBreak | FileUpload | Image | Video

  /** One form item.  The optional media fields are not modelled; `inputIndex` is the
      1-based position among the input fields, absent until a form is adjusted. */
  datatype Question = Question(
    itemId: int,
    title: string,
    description: Option<string>,
    qtype: QuestionType,
    options: seq<string>,
    required: bool,
    id: string,
    inputIndex: Option<int>)
}
