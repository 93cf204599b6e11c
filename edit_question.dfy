/**
  The dialog that edits one question of the question bank and writes the server's
  copy back into the bank's list.
*/
module EditQuestion {
  import opened Common
  import opened Records
  import opened Api
  import opened QuestionForm
  import Seqs
  import Ordering

  /**
    The `media` state: nothing, the url of the stored attachment (a string), or a newly
    picked file with its kind.
  */
  datatype MediaState = NoMedia | StoredUrl(url: string) | Upload(kind: string, file: File)

  datatype EditDialog = EditDialog(question: Question, draft: Draft, media: MediaState, isUpdating: bool)

  /**
    The dialog's initial state for `q`: its `useState` initialisers. They run once, when
    the dialog component mounts, not each time the dialog opens. So edits made before a
    close are still there when it reopens.
  */
  function Initial(q: Question): (r: EditDialog)
    ensures r.question == q && !r.isUpdating
    ensures r.draft.data == QuestionData(q.topicId, q.sectionId, q.questionType, q.text, q.answer,
                                         if q.explanation.Some? then q.explanation.value else "")
    ensures q.media.Some? ==> r.media == StoredUrl(q.media.value.url)
    ensures q.media.None? ==> r.media == NoMedia
    ensures q.questionType == MultipleChoice ==>
              |r.draft.choices| == |q.choices|
              && forall i :: 0 <= i < |q.choices| ==> r.draft.choices[i] == Some(q.choices[i])
    ensures q.questionType != MultipleChoice ==> r.draft.choices == FreshChoices()
  {
    var explanation := match q.explanation case Some(x) => x case None => "";
    var data := QuestionData(q.topicId, q.sectionId, q.questionType, q.text, q.answer, explanation);
    var choices := if q.questionType == MultipleChoice then seq(|q.choices|, i requires 0 <= i < |q.choices| => Some(q.choices[i]))
                   else FreshChoices();
    var media := match q.media case Some(m) => StoredUrl(m.url) case None => NoMedia;
    EditDialog(q, Draft(data, choices), media, false)
  }

  /**
    The file input: with no file list nothing happens; otherwise the first picked file
    becomes an upload, an image when its MIME type starts with "image".
  */
  function PickFile(e: EditDialog, picked: Option<File>): (r: EditDialog)
    ensures r.(media := e.media) == e
    ensures picked.None? ==> r == e
    ensures picked.Some? ==> r.media == Upload(MediaKind(picked.value.mime), picked.value)
  {
    match picked
    case None => e
    case Some(file) => e.(media := Upload(MediaKind(file.mime), file))
  }

  /** The remove button: the media goes, stored or new. */
  function ClearMedia(e: EditDialog): (r: EditDialog)
    ensures r.media == NoMedia && r.(media := e.media) == e
  {
    e.(media := NoMedia)
  }

  /** Only a newly picked file is uploaded; a stored url is never sent back. */
  function UploadOf(media: MediaState): (f: Option<File>)
    ensures f.Some? <==> media.Upload?
    ensures media.Upload? ==> f == Some(media.file)
  {
    if media.Upload? then Some(media.file) else None
  }

  /**
    `handleSubmit` up to the request: the updating flag is raised and one PUT carries the
    form to the question's path. The disabled button keeps an incomplete draft from
    submitting at all.
  */
  method BeginUpdate(e: EditDialog) returns (busy: EditDialog, requests: seq<Request>)
    ensures !CanSubmit(e.draft.data) ==> busy == e && requests == []
    ensures CanSubmit(e.draft.data) ==>
              && busy == e.(isUpdating := true)
              && |requests| == 1
              && requests[0].Put? && requests[0].path == QuestionPath(e.question.id)
              && requests[0].body.Multipart?
              && IsQuestionForm(requests[0].body.fields, e.draft.data, e.draft.choices, UploadOf(e.media))
  {
    if !CanSubmit(e.draft.data) {
      return e, [];
    }
    busy := e.(isUpdating := true);
    var form := BuildForm(e.draft.data, e.draft.choices, UploadOf(e.media));
    requests := [Put(QuestionPath(e.question.id), Multipart(form))];
  }

  /**
    `setQuestions` after a successful PUT: the entry with the edited question's id,
    the first one if several share it, is replaced; when none has it (`findIndex` gives -1)
    the list is unchanged.
  */
  function ReplaceQuestion(list: seq<Question>, id: Id, updated: Question): (r: seq<Question>)
    ensures |r| == |list|
    ensures !Ordering.Has(list, QuestionId, id) ==> r == list
    ensures Ordering.Has(list, QuestionId, id) ==>
              var k := Ordering.IndexOf(list, QuestionId, id);
              && 0 <= k < |list| && list[k].id == id && r[k] == updated
              && (forall j :: 0 <= j < k ==> list[j].id != id)
              && forall j :: 0 <= j < |list| && j != k ==> r[j] == list[j]
  {
    Seqs.AssignAt(list, Ordering.IndexOf(list, QuestionId, id), updated)
  }

  /** When ids are unique, replacing touches exactly the entry carrying that id. */
  lemma ReplaceOnlyMatching(list: seq<Question>, id: Id, updated: Question)
    requires Seqs.DistinctBy(list, QuestionId)
    ensures forall j :: 0 <= j < |list| && list[j].id != id ==> ReplaceQuestion(list, id, updated)[j] == list[j]
    ensures forall j :: 0 <= j < |list| && list[j].id == id ==> ReplaceQuestion(list, id, updated)[j] == updated
  {
    forall j | 0 <= j < |list| && list[j].id == id
      ensures ReplaceQuestion(list, id, updated)[j] == updated
    {
      assert QuestionId(list[j]) == id;
    }
  }

  /**
    The rest of `handleSubmit`: on success the bank's list gets the server's copy; on
    failure it is left as it was. The updating flag ends lowered either way.
  */
  function FinishUpdate(busy: EditDialog, list: seq<Question>, updated: Option<Question>): (r: (EditDialog, seq<Question>))
    ensures r.0 == busy.(isUpdating := false)
    ensures updated.None? ==> r.1 == list
    ensures updated.Some? ==> r.1 == ReplaceQuestion(list, busy.question.id, updated.value)
  {
    match updated
    case None => (busy.(isUpdating := false), list)
    case Some(q) => (busy.(isUpdating := false), ReplaceQuestion(list, busy.question.id, q))
  }
}
