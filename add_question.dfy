/** The dialog that adds a question to the question bank. */
module AddQuestion {
  import opened Common
  import opened Api
  import opened Records
  import opened QuestionForm

  /** A picked file and whether it shows as an image or a video. */
  datatype NewMedia = NewMedia(kind: string, file: File)

  datatype AddDialog = AddDialog(draft: Draft, media: Option<NewMedia>)

  /** `initialData`: every field empty except the type, which starts as multiple choice. */
  const InitialData := QuestionData("", "", MultipleChoice, "", "", "")

  function Initial(): (r: AddDialog)
    ensures r.draft.data.questionType == MultipleChoice
    ensures r.draft.data.topic == "" && r.draft.data.section == "" && r.draft.data.question == ""
            && r.draft.data.answer == "" && r.draft.data.explanation == ""
    ensures r.draft.choices == FreshChoices() && r.media.None?
    ensures !CanSubmit(r.draft.data)
  {
    AddDialog(Draft(InitialData, FreshChoices()), None)
  }

  /**
    The file input: with no file list nothing happens; otherwise the first picked file is
    kept, as an image when its MIME type starts with "image".
  */
  function PickFile(a: AddDialog, picked: Option<File>): (r: AddDialog)
    ensures r.draft == a.draft
    ensures picked.None? ==> r == a
    ensures picked.Some? ==> r.media == Some(NewMedia(MediaKind(picked.value.mime), picked.value))
  {
    match picked
    case None => a
    case Some(file) => a.(media := Some(NewMedia(MediaKind(file.mime), file)))
  }

  /** The remove button of the preview. */
  function ClearMedia(a: AddDialog): (r: AddDialog)
    ensures r.draft == a.draft && r.media.None?
  {
    a.(media := None)
  }

  function FileOf(media: Option<NewMedia>): (f: Option<File>)
    ensures f.Some? <==> media.Some?
    ensures media.Some? ==> f == Some(media.value.file)
  {
    match media
    case None => None
    case Some(m) => Some(m.file)
  }

  /** `handleSubmit` up to the request: one POST to "/questions" with the form. */
  method BeginAdd(a: AddDialog) returns (requests: seq<Request>)
    ensures !CanSubmit(a.draft.data) ==> requests == []
    ensures CanSubmit(a.draft.data) ==>
              && |requests| == 1
              && requests[0].Post? && requests[0].path == "/questions"
              && requests[0].body.Multipart?
              && IsQuestionForm(requests[0].body.fields, a.draft.data, a.draft.choices, FileOf(a.media))
  {
    if !CanSubmit(a.draft.data) {
      return [];
    }
    var form := BuildForm(a.draft.data, a.draft.choices, FileOf(a.media));
    requests := [Post("/questions", Multipart(form))];
  }

  /**
    The rest of `handleSubmit`. After the POST succeeds the media, question, answer and
    explanation are cleared so the next question can be typed under the same topic,
    section and type, with the choices left as they were; a failed POST changes nothing.
  */
  function FinishAdd(a: AddDialog, ok: bool): (r: AddDialog)
    ensures !ok ==> r == a
    ensures ok ==> r.media.None? && r.draft.choices == a.draft.choices
    ensures ok ==> r.draft.data.question == "" && r.draft.data.answer == "" && r.draft.data.explanation == ""
    ensures ok ==> r.draft.data.topic == a.draft.data.topic && r.draft.data.section == a.draft.data.section
                   && r.draft.data.questionType == a.draft.data.questionType
  {
    if !ok then a
    else AddDialog(a.draft.(data := a.draft.data.(question := "", answer := "", explanation := "")), None)
  }

  /**
    After a successful add the dialog cannot submit again until a question and an answer
    are typed, so one click never adds the same question twice.
  */
  lemma AddedDialogBlocksResubmit(a: AddDialog)
    ensures !CanSubmit(FinishAdd(a, true).draft.data)
  {
  }
}
