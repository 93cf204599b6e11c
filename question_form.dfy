/**
  What the add and edit question dialogs share: the draft they edit, the handlers that
  reset dependent fields, and the multipart form they send.
*/
module QuestionForm {
  import opened Common
  import opened Records
  import opened Api
  import Seqs

  /** The dialog's `data` record. */
  datatype QuestionData = QuestionData(
    topic: Id,
    section: Id,
    questionType: string,
    question: string,
    answer: string,
    explanation: string)

  /**
    The answer choices. `Array.from({ length: 4 })` gives four `undefined` slots, which
    `None` stands for; a typed-in choice is `Some`.
  */
  type Choices = seq<Option<string>>

  function FreshChoices(): (r: Choices)
    ensures |r| == 4 && forall i :: 0 <= i < |r| ==> r[i] == None
  {
    [None, None, None, None]
  }

  /** The fields the dialogs edit. */
  datatype Draft = Draft(data: QuestionData, choices: Choices)

  /** The topic select: a new topic makes the chosen section meaningless, so it is cleared. */
  function ChangeTopic(d: Draft, topic: Id): (r: Draft)
    ensures r.data.topic == topic && r.data.section == ""
    ensures r.data.(topic := d.data.topic, section := d.data.section) == d.data
    ensures r.choices == d.choices
  {
    d.(data := d.data.(topic := topic, section := ""))
  }

  /** The type select: the answer is cleared and the choices go back to four empty slots. */
  function ChangeType(d: Draft, questionType: string): (r: Draft)
    ensures r.data.questionType == questionType && r.data.answer == ""
    ensures r.data.(questionType := d.data.questionType, answer := d.data.answer) == d.data
    ensures r.choices == FreshChoices()
  {
    Draft(d.data.(questionType := questionType, answer := ""), FreshChoices())
  }

  /**
    The input of choice `i` (`copy[i] = value` on a copy): only entry `i` changes. The
    inputs exist for the rendered entries only, so `i` is one of them.
  */
  function SetChoice(d: Draft, i: nat, value: string): (r: Draft)
    requires i < |d.choices|
    ensures r.data == d.data
    ensures |r.choices| == |d.choices| && r.choices[i] == Some(value)
    ensures forall j :: 0 <= j < |d.choices| && j != i ==> r.choices[j] == d.choices[j]
  {
    d.(choices := Seqs.AssignAt(d.choices, i, Some(value)))
  }

  /** Setting choices leaves the type and answer in place; a type change resets every choice. */
  lemma {:induction false} TypeChangeDiscardsChoices(d: Draft, i: nat, value: string, questionType: string)
    requires i < |d.choices|
    ensures ChangeType(SetChoice(d, i, value), questionType) == ChangeType(d, questionType)
  {
    assert SetChoice(d, i, value).data == d.data;
  }

  /**
    How a picked file is shown and sent: as an image when its MIME type starts with
    "image", as a video otherwise.
  */
  function MediaKind(mime: string): (kind: string)
    ensures kind == "image" <==> |mime| >= 5 && mime[..5] == "image"
    ensures kind != "image" ==> kind == "video"
  {
    if |mime| >= 5 && mime[..5] == "image" then "image" else "video"
  }

  /** The submit button is disabled while the answer or the question is empty. */
  predicate CanSubmit(data: QuestionData)
  {
    data.answer != "" && data.question != ""
  }

  /**
    The form both dialogs send: the six text fields of `data`, then the choices exactly
    for a multiple-choice question, then the file exactly when there is one to upload.
  */
  ghost predicate IsQuestionForm(form: seq<FormField>, data: QuestionData, choices: Choices, file: Option<File>)
  {
    var n := 6 + (if data.questionType == MultipleChoice then 1 else 0) + (if file.Some? then 1 else 0);
    && |form| == n
    && form[0] == FormField("topicId", Text(data.topic))
    && form[1] == FormField("sectionId", Text(data.section))
    && form[2] == FormField("type", Text(data.questionType))
    && form[3] == FormField("question", Text(data.question))
    && form[4] == FormField("answer", Text(data.answer))
    && form[5] == FormField("explanation", Text(data.explanation))
    && (forall k :: 0 <= k < n ==> (form[k].name == "choices" <==> data.questionType == MultipleChoice && k == 6))
    && (data.questionType == MultipleChoice ==> form[6] == FormField("choices", ChoiceListJson(choices)))
    && (forall k :: 0 <= k < n ==> (form[k].name == "file" <==> file.Some? && k == n - 1))
    && (file.Some? ==> form[n - 1] == FormField("file", Blob(file.value)))
  }

  /** The successive `formData.append` calls of both `handleSubmit`s. */
  method BuildForm(data: QuestionData, choices: Choices, file: Option<File>) returns (form: seq<FormField>)
    ensures IsQuestionForm(form, data, choices, file)
  {
    form := [FormField("topicId", Text(data.topic))];
    form := form + [FormField("sectionId", Text(data.section))];
    form := form + [FormField("type", Text(data.questionType))];
    form := form + [FormField("question", Text(data.question))];
    form := form + [FormField("answer", Text(data.answer))];
    form := form + [FormField("explanation", Text(data.explanation))];
    if data.questionType == MultipleChoice {
      form := form + [FormField("choices", ChoiceListJson(choices))];
    }
    if file.Some? {
      form := form + [FormField("file", Blob(file.value))];
    }
  }
}
