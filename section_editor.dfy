/**
  The content editor of one section: up to three attachments (stored on the server or
  picked and still pending), their removal, and saving content and attachments in one
  multipart PATCH. The handlers exist once the section has loaded.
*/
module SectionEditor {
  import opened Common
  import opened Records
  import opened Api
  import Seqs

  /** A picked file that has not been uploaded yet. */
  datatype PendingMedia = PendingMedia(name: string, file: File)

  /** At most this many attachments can be queued next to the stored ones. */
  const MaxMedia: nat := 3

  datatype Editor = Editor(
    section: Section,
    content: Option<Doc>,
    medias: seq<PendingMedia>,
    stored: seq<StoredMedia>,
    isSaving: bool)

  function MediaCount(e: Editor): nat
  {
    |e.stored| + |e.medias|
  }

  /**
    The file input's change handler: with no file list nothing happens; otherwise the
    first picked file is queued under its own name, but only while stored and pending
    attachments number fewer than three.
  */
  function AddMedia(e: Editor, picked: Option<File>): (r: Editor)
    ensures r.(medias := e.medias) == e
    ensures picked.Some? && MediaCount(e) < MaxMedia ==>
              r.medias == e.medias + [PendingMedia(picked.value.name, picked.value)]
    ensures picked.None? || MediaCount(e) >= MaxMedia ==> r == e
    ensures MediaCount(e) <= MaxMedia ==> MediaCount(r) <= MaxMedia
  {
    match picked
    case None => e
    case Some(file) =>
      if MediaCount(e) < MaxMedia then e.(medias := e.medias + [PendingMedia(file.name, file)]) else e
  }

  /** The remove button of a stored attachment: drops every stored entry with that url. */
  function RemoveStored(e: Editor, url: string): (r: Editor)
    ensures r.(stored := e.stored) == e
    ensures forall m :: m in r.stored <==> m in e.stored && m.url != url
    ensures r.stored == Seqs.Filter(e.stored, (m: StoredMedia) => m.url != url)
    ensures MediaCount(r) <= MediaCount(e)
  {
    e.(stored := Seqs.Filter(e.stored, (m: StoredMedia) => m.url != url))
  }

  /** The remove button of a pending attachment: drops every pending entry with that name. */
  function RemovePending(e: Editor, name: string): (r: Editor)
    ensures r.(medias := e.medias) == e
    ensures forall m :: m in r.medias <==> m in e.medias && m.name != name
    ensures r.medias == Seqs.Filter(e.medias, (m: PendingMedia) => m.name != name)
    ensures MediaCount(r) <= MediaCount(e)
  {
    e.(medias := Seqs.Filter(e.medias, (m: PendingMedia) => m.name != name))
  }

  /**
    What the save sends: the content, the list of stored attachments still kept, and
    then every pending file, in the order they were picked.
  */
  ghost predicate IsSaveForm(form: seq<FormField>, content: Doc, stored: seq<StoredMedia>, medias: seq<PendingMedia>)
  {
    && |form| == 2 + |medias|
    && form[0] == FormField("content", DocJson(content))
    && form[1] == FormField("medias", MediaListJson(stored))
    && forall i :: 0 <= i < |medias| ==> form[2 + i] == FormField("files", Blob(medias[i].file))
  }

  /** The `FormData` of `handleSaveContent`, one `append` after another. */
  method SaveForm(content: Doc, stored: seq<StoredMedia>, medias: seq<PendingMedia>) returns (form: seq<FormField>)
    ensures IsSaveForm(form, content, stored, medias)
  {
    form := [FormField("content", DocJson(content))];
    form := form + [FormField("medias", MediaListJson(stored))];
    var i := 0;
    while i < |medias|
      invariant 0 <= i <= |medias|
      invariant |form| == 2 + i
      invariant form[0] == FormField("content", DocJson(content))
      invariant form[1] == FormField("medias", MediaListJson(stored))
      invariant forall j :: 0 <= j < i ==> form[2 + j] == FormField("files", Blob(medias[j].file))
    {
      form := form + [FormField("files", Blob(medias[i].file))];
      i := i + 1;
    }
  }

  /**
    `handleSaveContent` up to the request: with no content it returns before anything
    happens; otherwise it raises the saving flag and sends one PATCH with the form.
  */
  method BeginSave(e: Editor) returns (busy: Editor, requests: seq<Request>)
    ensures e.content.None? ==> busy == e && requests == []
    ensures e.content.Some? ==>
              && busy == e.(isSaving := true)
              && |requests| == 1
              && requests[0].Patch? && requests[0].path == SectionPath(e.section.id)
              && requests[0].body.Multipart?
              && IsSaveForm(requests[0].body.fields, e.content.value, e.stored, e.medias)
  {
    if e.content.None? {
      return e, [];
    }
    var form := SaveForm(e.content.value, e.stored, e.medias);
    busy := e.(isSaving := true);
    requests := [Patch(SectionPath(e.section.id), Multipart(form))];
  }

  /**
    The rest of `handleSaveContent` as written. On success it lowers the flag, empties
    the pending list and takes section, stored list and content from the server's
    record; when the PATCH throws (`None`) nothing runs, so the flag stays raised.
  */
  function FinishSaveAsWritten(busy: Editor, saved: Option<Section>): (r: Editor)
    ensures saved.None? ==> r == busy
    ensures saved.Some? ==> r == Editor(saved.value, saved.value.content, [], saved.value.medias, false)
  {
    match saved
    case None => busy
    case Some(s) => Editor(s, s.content, [], s.medias, false)
  }

  /**
    The rest of `handleSaveContent` with the flag lowered on failure too: the saving
    indicator (a dialog without a close button) never outlives the request.
  */
  function FinishSave(busy: Editor, saved: Option<Section>): (r: Editor)
    ensures !r.isSaving
    ensures saved.None? ==> r == busy.(isSaving := false)
    ensures saved.Some? ==>
              r.medias == [] && r.stored == saved.value.medias
              && r.section == saved.value && r.content == saved.value.content
  {
    match saved
    case None => busy.(isSaving := false)
    case Some(s) => FinishSaveAsWritten(busy, saved)
  }

  /** As written, a failed save leaves the saving indicator up for good. */
  lemma FailedSaveKeepsIndicator(e: Editor)
    requires e.content.Some?
    ensures FinishSaveAsWritten(e.(isSaving := true), None).isSaving
    ensures !FinishSave(e.(isSaving := true), None).isSaving
  {
  }

  /** One user action on the attachment grid. */
  datatype MediaEdit = Pick(picked: Option<File>) | DropStored(url: string) | DropPending(name: string)

  function ApplyEdit(e: Editor, edit: MediaEdit): Editor
  {
    match edit
    case Pick(picked) => AddMedia(e, picked)
    case DropStored(url) => RemoveStored(e, url)
    case DropPending(name) => RemovePending(e, name)
  }

  function ApplyEdits(e: Editor, edits: seq<MediaEdit>): Editor
    decreases |edits|
  {
    if edits == [] then e else ApplyEdits(ApplyEdit(e, edits[0]), edits[1..])
  }

  /**
    Once stored and pending attachments number at most three, no sequence of picks
    and removals takes them above three, and none touches the section, the content or
    the saving flag.
  */
  lemma {:induction false} EditsKeepCap(e: Editor, edits: seq<MediaEdit>)
    requires MediaCount(e) <= MaxMedia
    ensures MediaCount(ApplyEdits(e, edits)) <= MaxMedia
    ensures ApplyEdits(e, edits).section == e.section
    ensures ApplyEdits(e, edits).content == e.content
    ensures ApplyEdits(e, edits).isSaving == e.isSaving
    decreases |edits|
  {
    if edits != [] {
      EditsKeepCap(ApplyEdit(e, edits[0]), edits[1..]);
    }
  }
}
