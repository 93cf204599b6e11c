# EduGuide+ admin dashboard: event handlers as verified transitions

This project models the event handlers of the EduGuide+ school-administration dashboard,
a React single-page application. Each handler is written as a transition from the old
screen state to the new state, together with the HTTP requests it issues. The server's
answers are inputs: `Some(record)` is a response and `None` is a request that threw.
Nothing is sent anywhere.

The screens covered are:

- **The section list of a topic** (`TopicSections`): create, rename, delete, and drag
  to reorder. A reorder persists ranks 1..N with one order PATCH per section.
- **The flat handbook list** (`HandbookPage.Handbook`): a class that holds the list,
  the `firstMount` ref and the log of issued requests. After every list change an
  effect re-persists the ranks of the whole list.
- **The quiz builder** (`QuizCreator`): the settings record, and questions moved
  between the bank and the quiz, which can also be reordered.
- **The section content editor** (`SectionEditor`): at most three attachments, and one
  multipart save.
- **The "Add Category" form** (`CategoryForm`): validation and a trimmed payload.
- **The add and edit question dialogs** (`QuestionForm`, `AddQuestion`,
  `EditQuestion`) and **the question bank's delete** (`QuestionBank`).

Shared vocabulary lives in separate modules:

- `Seqs`: the JavaScript array operations, such as `filter`, `findIndex`, an
  assignment through an index, and removal at an index.
- `JsStrings`: ECMAScript `String.prototype.trim`. It strips the WhiteSpace and
  LineTerminator code points of the ECMAScript Language Specification, section 12.2
  and section 12.3.
- `Ordering`: `arrayMove`, the drag-end guard, and dense rank persistence.
- `Records` and `Api`: the server's records, and the request shapes.

What is proved, besides each handler's own contract:

- A drop is a permutation that lands the dragged item on the target's index.
- The order PATCHes of a reorder converge to ranks 1..N, whatever the order in which
  they complete.
- The quiz builder's two lists always partition the questions.
- Picks and removals of attachments never exceed the cap of three.
- The category payload holds trimmed, non-empty section titles. Cleaning them is
  idempotent and matches `map(trim).filter(Boolean)`.
- The edit dialog replaces only the entry with the edited id.
- A successful question delete leaves exactly the other questions, in their order.

## Model

| member | source | states |
|---|---|---|
| Seqs.Move | src/components/Topic.tsx:96 | `arrayMove` with both indices in range leaves the length unchanged |
| Seqs.MoveShape | src/components/Topic.tsx:96 | the moved item sits at the target index, items in between shift by one towards the vacated index, and all others stay put |
| Seqs.MoveAt | src/components/Topic.tsx:96 | every position of a move holds the element of the original position given by `MoveSource` |
| Seqs.MovePermutes | src/components/Topic.tsx:96 | a move is a permutation: the multiset of elements is unchanged |
| Seqs.MoveToSelf | src/components/Topic.tsx:96 | moving an item onto its own index changes nothing |
| Seqs.MoveInverse | src/components/Topic.tsx:96 | moving back from the target to the source index restores the list |
| Seqs.Filter | src/pages/handbook/manage/index.tsx:27 | `filter` keeps exactly the accepted elements, each as often as in the input, and never lengthens the list |
| Seqs.FilterConcat | src/components/Topic.tsx:84 | filtering a concatenation is filtering each part, so survivors keep their relative order |
| Seqs.FilterKeepsAll | src/components/Topic.tsx:84 | a filter that accepts every element returns the list unchanged |
| Seqs.FilterDropsOne | src/pages/quiz/questions/page.tsx:20 | filtering out one rejected element between accepted ones closes the gap and keeps the rest |
| Seqs.FindIndex | src/components/Topic.tsx:76 | `findIndex` is -1 exactly when nothing matches, and otherwise the first matching index |
| Seqs.AssignAt | src/components/Topic.tsx:75-77 | assignment through an index inside the array changes that entry only, and a negative index (the -1 of a failed `findIndex`) changes nothing |
| Seqs.RemoveAt | src/pages/handbook/manage/index.tsx:16-17 | `filter((_, i) => i !== k)` drops exactly position k, closes up the rest in order, and leaves the list whole when k is out of range |
| JsStrings.Trim | src/pages/handbook/manage/index.tsx:22 | `trim` is never longer than its input, and a non-empty result neither starts nor ends with whitespace |
| JsStrings.TrimStart | src/pages/handbook/manage/index.tsx:22 | the result is a suffix, everything stripped is whitespace, and it starts with a non-whitespace character |
| JsStrings.TrimEnd | src/pages/handbook/manage/index.tsx:22 | the result is a prefix, everything stripped is whitespace, and it ends with a non-whitespace character |
| JsStrings.TrimCut | src/pages/handbook/manage/index.tsx:22 | `trim` returns `s[i..j]` for indices whose margins before i and from j on are all whitespace |
| JsStrings.TrimShape | src/pages/handbook/manage/index.tsx:22 | `trim` returns the middle of the string between two all-whitespace margins, with no whitespace at either end |
| JsStrings.TrimBlank | src/pages/handbook/manage/index.tsx:22 | a string trims to "" exactly when every character is whitespace |
| JsStrings.TrimIdempotent | src/pages/handbook/manage/index.tsx:25-27 | trimming twice is trimming once |
| Api.SectionPathInjective | src/components/Topic.tsx:99 | different section ids are addressed by different `/sections/:id` paths |
| Ordering.ArrayMove | src/components/Topic.tsx:96 | `arrayMove` with a target counted from the end when negative preserves the length |
| Ordering.IndexOf | src/components/Topic.tsx:93-94 | the index of the first entry with that id, and -1 exactly when no entry has it |
| Ordering.DropAsWritten | src/components/Topic.tsx:88-96 | the drag-end of the section lists as written: it returns early exactly when the target is the dragged item itself, and otherwise builds a list of the same length |
| Ordering.Drop | src/pages/quiz/QuizCreator.tsx:178-183 | the guarded drag-end: nothing happens exactly when there is no target or the target is the dragged item |
| Ordering.DropMoves | src/pages/quiz/QuizCreator.tsx:180-182 | a real drop permutes the list, lands the dragged item on the target's former index, shifts the items in between by one, and keeps all others |
| Ordering.DropOutsideMovesToEnd | src/components/Topic.tsx:91-96 | as written, a drop outside every item moves the dragged item to the end of the list, while the guarded version changes nothing |
| Ordering.WithoutId | src/components/Topic.tsx:84 | `filter((s) => s._id !== id)` keeps exactly the entries with another id |
| Ordering.WithoutIdConcat | src/pages/handbook/index.tsx:85 | dropping an id from a split list drops it from each part, in order |
| Ordering.WithoutAbsentId | src/pages/handbook/index.tsx:85 | dropping an id that no entry carries changes nothing |
| Ordering.WithoutSoleId | src/pages/handbook/index.tsx:85 | dropping the id of a single entry leaves exactly the entries before and after it |
| Ordering.WithoutMiddle | src/pages/handbook/index.tsx:85 | of three entries whose middle id is unique, dropping that id leaves the outer two in order |
| Ordering.PersistOrder | src/components/Topic.tsx:98-102 | the `forEach` issues one PATCH per position, front to back, giving the section at position i the order i + 1 |
| Ordering.ApplyUntouched | src/components/Topic.tsx:98-102 | completed order PATCHes for other paths leave the server's order of a path unchanged |
| Ordering.ApplySettles | src/components/Topic.tsx:98-102 | when every completed PATCH for a path sets the same order, the server ends with that order, whatever the completion order and however many repeats |
| Ordering.RanksConverge | src/pages/handbook/index.tsx:51-57 | with distinct ids, in whatever order the rank PATCHes complete, the server ends with order i + 1 for position i and keeps every other path's order |
| TopicSections.CreateSection | src/components/Topic.tsx:47-64 | one POST carries the topic id and title; on success the server's record is appended, and on failure the list is unchanged |
| TopicSections.RenameSection | src/components/Topic.tsx:66-80 | one title PATCH; the server's record replaces the first entry with that id, and the list is unchanged when there is no such entry or the request fails |
| TopicSections.DeleteSection | src/components/Topic.tsx:82-86 | one DELETE; on success exactly the entries with other ids remain, and on failure the list is unchanged |
| TopicSections.DeleteKeepsServerOrders | src/components/Topic.tsx:82-86 | a delete here rewrites no order, so the survivors keep their ranks, gaps included |
| TopicSections.HandleDragEnd | src/components/Topic.tsx:88-105 | a real drop yields the array move, a permutation, and then one order PATCH per section with ranks 1..N in the new order; no drop issues nothing |
| HandbookPage.Handbook.constructor | src/pages/handbook/index.tsx:34-41 | mounting starts with an empty list and the ref set, and issues the GET for the list |
| HandbookPage.Handbook.SetSections | src/pages/handbook/index.tsx:43-60 | an empty list issues nothing; the first non-empty list only clears the ref; every later list issues order PATCHes with ranks 1..N |
| HandbookPage.Handbook.Fetched | src/pages/handbook/index.tsx:38-40 | the fetched list replaces the state, and the effect runs on it |
| HandbookPage.Handbook.HandleSubmit | src/pages/handbook/index.tsx:62-70 | a POST with the title and no topic; on success the record is appended and the whole list is re-ranked |
| HandbookPage.Handbook.HandleDragEnd | src/pages/handbook/index.tsx:72-81 | a real drop replaces the list by its permutation and re-ranks it; no drop changes nothing |
| HandbookPage.Handbook.HandleDelete | src/pages/handbook/index.tsx:83-87 | one DELETE; on success exactly the survivors remain, the ref is cleared unless none survives, and the survivors are re-ranked 1..N-1, closing the gap; on failure nothing but the request changes |
| HandbookPage.DropMiddle | src/pages/handbook/index.tsx:85 | deleting the middle one of three sections with distinct ids leaves the outer two |
| HandbookPage.RanksOfTwo | src/pages/handbook/index.tsx:51-57 | a two-section list is re-ranked by exactly two PATCHes, order 1 then order 2 |
| QuizCreator.FormExtensional | src/pages/quiz/QuizCreator.tsx:45-53 | two settings records that agree on every field are equal |
| QuizCreator.InputChange | src/pages/quiz/QuizCreator.tsx:206-211 | the named field takes the value and every other field is unchanged |
| QuizCreator.Toggle | src/pages/quiz/QuizCreator.tsx:213-220 | the flag becomes the negation of the old value's truthiness and every other field is unchanged |
| QuizCreator.ToggleTwice | src/pages/quiz/QuizCreator.tsx:213-220 | toggling a boolean flag twice restores the settings |
| QuizCreator.DistinctIdsUnique | src/pages/quiz/QuizCreator.tsx:55-81 | a list with distinct ids holds each question once, and no two questions share an id |
| QuizCreator.InitialQuizValid | src/pages/quiz/QuizCreator.tsx:155-169 | the builder starts with `InitialForm` (the settings of lines 156-164), an empty quiz and `SampleQuestions` (`SAMPLE_QUESTIONS`, lines 55-81), and these satisfy the partition invariant |
| QuizCreator.DragEnd | src/pages/quiz/QuizCreator.tsx:175-185 | a drop onto another quiz question permutes the quiz and lands the dragged question on the target's index; otherwise nothing changes |
| QuizCreator.AddQuestion | src/pages/quiz/QuizCreator.tsx:187-194 | a question not yet in the quiz is appended to it and every bank entry with its id is dropped; one already in the quiz changes nothing |
| QuizCreator.RemoveQuestion | src/pages/quiz/QuizCreator.tsx:196-204 | every quiz entry with the id is dropped and the first one goes to the end of the bank; an id not in the quiz changes nothing |
| QuizCreator.WithoutUnique | src/pages/quiz/QuizCreator.tsx:191 | in a list with one entry per id, filtering out an id removes exactly that entry |
| QuizCreator.AddKeepsPartition | src/pages/quiz/QuizCreator.tsx:187-194 | adding a bank question keeps all the questions and keeps each in exactly one list |
| QuizCreator.DragEndKeepsPartition | src/pages/quiz/QuizCreator.tsx:175-184 | reordering the quiz by a drag keeps all the questions and keeps each in exactly one list |
| QuizCreator.RemoveKeepsPartition | src/pages/quiz/QuizCreator.tsx:196-204 | removing a quiz question keeps all the questions and keeps each in exactly one list |
| QuizCreator.PartitionByMultiset | src/pages/quiz/QuizCreator.tsx:166-169 | lists that hold the same questions as a valid quiz form a valid quiz |
| SectionEditor.AddMedia | src/pages/handbook/content/sections/edit.tsx:167-180 | with no file list nothing happens; a pick is appended under the file's name only while stored plus pending is below 3; a total of at most 3 stays at most 3 |
| SectionEditor.RemoveStored | src/pages/handbook/content/sections/edit.tsx:215-221 | exactly the stored attachments with another url remain, in order, and the total never grows |
| SectionEditor.RemovePending | src/pages/handbook/content/sections/edit.tsx:249-255 | exactly the pending attachments with another name remain, in order, and the total never grows |
| SectionEditor.SaveForm | src/pages/handbook/content/sections/edit.tsx:56-64 | the form holds the content, then the stored list, then every pending file in pick order |
| SectionEditor.BeginSave | src/pages/handbook/content/sections/edit.tsx:55-67 | with no content, nothing happens and nothing is sent; otherwise the saving flag is raised and one PATCH to the section carries that form |
| SectionEditor.FinishSaveAsWritten | src/pages/handbook/content/sections/edit.tsx:67-75 | as written: a successful save empties the pending list and takes section, stored list and content from the server; a failed save leaves everything, the raised flag included |
| SectionEditor.FinishSave | src/pages/handbook/content/sections/edit.tsx:67-75 | the corrected settle: the flag ends lowered on success and on failure, and success behaves as written |
| SectionEditor.FailedSaveKeepsIndicator | src/pages/handbook/content/sections/edit.tsx:66-70 | as written, a failed save leaves the saving indicator up; corrected, it is lowered |
| SectionEditor.EditsKeepCap | src/pages/handbook/content/sections/edit.tsx:171 | no sequence of picks and removals takes a total of at most three attachments above three, or touches section, content or flag |
| CategoryForm.AddSection | src/pages/handbook/manage/index.tsx:13 | one empty row is appended and everything else is unchanged |
| CategoryForm.UpdateSection | src/pages/handbook/manage/index.tsx:14-15 | only row idx changes and the length is kept |
| CategoryForm.RemoveSection | src/pages/handbook/manage/index.tsx:16-17 | exactly row idx is removed, the rest stay in order, and an index out of range changes nothing |
| CategoryForm.TrimAll | src/pages/handbook/manage/index.tsx:27 | `map(trim)` trims every row and keeps the positions |
| CategoryForm.CleanSections | src/pages/handbook/manage/index.tsx:27 | every cleaned row is non-empty and already trimmed, and there are no more rows than before |
| CategoryForm.CleanSectionsIsTrimThenFilter | src/pages/handbook/manage/index.tsx:27 | the row-by-row cleaning is exactly `map((s) => s.trim()).filter(Boolean)` |
| CategoryForm.CleanSectionsConcat | src/pages/handbook/manage/index.tsx:27 | cleaning two runs of rows appends their cleanings, so the original order is kept |
| CategoryForm.CleanSectionsIdempotent | src/pages/handbook/manage/index.tsx:27 | cleaned rows are already clean |
| CategoryForm.Submit | src/pages/handbook/manage/index.tsx:19-35 | a name blank after trimming is refused and the form is untouched; otherwise the payload is trimmed name, trimmed description and cleaned rows, and the form is reset |
| CategoryForm.SubmitAccepts | src/pages/handbook/manage/index.tsx:22-28 | a submit is accepted exactly when the name has a non-whitespace character, and accepted payloads are non-blank and fully trimmed |
| CategoryForm.SubmitStable | src/pages/handbook/manage/index.tsx:24-28 | submitting an accepted payload again yields the same payload |
| QuestionForm.FreshChoices | src/components/AddQuestionDialog.tsx:39 | `Array.from({ length: 4 })` is four empty slots |
| QuestionForm.ChangeTopic | src/components/EditQuestionDialog.tsx:130-132 | the topic is set, the section is cleared, and nothing else changes |
| QuestionForm.ChangeType | src/components/AddQuestionDialog.tsx:162-169 | the type is set, the answer is cleared, the choices go back to four empty slots, and nothing else changes |
| QuestionForm.SetChoice | src/components/EditQuestionDialog.tsx:323-327 | only choice i changes, and every other choice and field is unchanged |
| QuestionForm.TypeChangeDiscardsChoices | src/components/AddQuestionDialog.tsx:162-169 | a type change after editing a choice gives the same draft as without that edit |
| QuestionForm.MediaKind | src/components/AddQuestionDialog.tsx:224-229 | a file is an image exactly when its MIME type starts with "image", and a video otherwise |
| QuestionForm.BuildForm | src/components/EditQuestionDialog.tsx:71-85 | the six text fields, then the choices exactly for multiple choice, then the file exactly when there is one, each of those two once |
| EditQuestion.Initial | src/components/EditQuestionDialog.tsx:39-61 | the state the dialog mounts with, which a close and reopen does not reset: the draft copies the question, the explanation defaults to "", the media is the stored url or none, and the choices are the question's own for multiple choice and four empty slots otherwise |
| EditQuestion.PickFile | src/components/EditQuestionDialog.tsx:242-252 | with no file list nothing happens; otherwise the first file becomes a new upload of its kind |
| EditQuestion.ClearMedia | src/components/EditQuestionDialog.tsx:264 | the media, stored or new, is dropped and nothing else changes |
| EditQuestion.UploadOf | src/components/EditQuestionDialog.tsx:83-85 | a file is sent exactly for a new upload, and never for the stored url |
| EditQuestion.BeginUpdate | src/components/EditQuestionDialog.tsx:67-88 | an incomplete draft cannot submit; otherwise the updating flag is raised and one PUT to the question carries the form |
| EditQuestion.ReplaceQuestion | src/components/EditQuestionDialog.tsx:91-96 | the first entry with the edited id gets the server's copy, the other entries are kept, and a list without that id is unchanged |
| EditQuestion.ReplaceOnlyMatching | src/components/EditQuestionDialog.tsx:91-96 | with unique ids, exactly the entry carrying the id is replaced |
| EditQuestion.FinishUpdate | src/components/EditQuestionDialog.tsx:87-101 | the updating flag ends lowered on success and on failure; only success touches the bank's list |
| AddQuestion.Initial | src/components/AddQuestionDialog.tsx:28-43 | every field starts empty except the type, which is multiple choice; there are four empty choices and no media; the dialog cannot submit |
| AddQuestion.PickFile | src/components/AddQuestionDialog.tsx:220-230 | with no file list nothing happens; otherwise the first file is kept with its kind |
| AddQuestion.ClearMedia | src/components/AddQuestionDialog.tsx:242 | the media is dropped and the draft is unchanged |
| AddQuestion.FileOf | src/components/AddQuestionDialog.tsx:60-62 | a file is sent exactly when media is set |
| AddQuestion.BeginAdd | src/components/AddQuestionDialog.tsx:46-65 | an incomplete draft cannot submit; otherwise one POST to /questions carries the form |
| AddQuestion.FinishAdd | src/components/AddQuestionDialog.tsx:64-77 | after success, the media, question, answer and explanation are cleared, and the topic, section, type and choices are kept; a failure changes nothing |
| AddQuestion.AddedDialogBlocksResubmit | src/components/AddQuestionDialog.tsx:359 | right after a successful add the dialog cannot submit again |
| QuestionBank.BeginDelete | src/pages/quiz/questions/page.tsx:15-17 | the deleting flag is raised, the list is kept, and one DELETE to the question is sent |
| QuestionBank.SettleAsWritten | src/pages/quiz/questions/page.tsx:17-22 | as written: success leaves exactly the questions with another id and lowers the flag; failure changes nothing, so the flag stays raised |
| QuestionBank.Settle | src/pages/quiz/questions/page.tsx:17-22 | the corrected settle: the flag ends lowered; success leaves exactly the questions with another id, and failure keeps the list |
| QuestionBank.FailedDeleteKeepsIndicator | src/pages/quiz/questions/page.tsx:15-22 | as written, a failed delete keeps the list and leaves the indicator up; corrected, it is lowered |
| QuestionBank.DeleteRemovesOnly | src/pages/quiz/questions/page.tsx:19-21 | a successful delete of an id held once leaves exactly the other questions, in their original order |

## Left out

- HTTP and the REST backend are not modelled. Each handler returns the requests it
  would issue. The server's answer is an input: an `Option` of the returned record, or
  a success flag.
- The fire-and-forget order PATCHes (src/components/Topic.tsx:98,
  src/pages/handbook/index.tsx:52) issue their requests in list order. Their completion
  order is not modelled. `Ordering.RanksConverge` covers every completion order instead.
  It covers one batch of PATCHes. Two reorders in quick succession whose batches overlap
  can interleave and leave mixed ranks on the server. That case is not covered.
- `arrayMove` of @dnd-kit/sortable is not part of this model. `Ordering.ArrayMove`
  assumes it removes one element and inserts it at the target, with a negative target
  counted from the end. The rest of the drag machinery (DndContext, useSortable) is left
  out as well.
- TopicSections.HandleDragEnd, HandbookPage.Handbook.HandleDragEnd and
  QuizCreator.DragEnd require the dragged id, and any target id, to be entries of the
  list. The drag library only reports ids of the sortable items it renders.
- TopicSections.HandleDragEnd and HandbookPage.Handbook.HandleDragEnd use the guarded
  drop. The handler as written is `Ordering.DropAsWritten`; see Findings.
- `JSON.stringify` is not modelled. Encoded form values keep their structure
  (`DocJson`, `MediaListJson`, `ChoiceListJson`).
- An empty file list is not modelled: picking is modelled only as no file list or one
  file. With an empty list `files[0]` is undefined. The dialogs then throw reading its
  type (src/components/AddQuestionDialog.tsx:225,
  src/components/EditQuestionDialog.tsx:247). The content editor reads its name only
  while fewer than three attachments are held
  (src/pages/handbook/content/sections/edit.tsx:171-175), and at the cap it does nothing.
- `handleEditTopicTitle` (src/components/Topic.tsx:38-45) only hands the server's topic
  record to the parent, and the topic records are not modelled. The content editor's
  own title edit (src/pages/handbook/content/sections/edit.tsx:41-51) and its fetch
  effect (lines 78-91) are left out for the same reason.
- The plain text inputs are single-field spreads and are not modelled one by one. These
  are the question, answer, explanation and section inputs of the dialogs, and the name
  and description inputs of the category form.
- In the quiz builder, `parseInt` is not modelled: the caller passes the resulting
  value (`Int`, `NaN` or `Null`). The submit only logs the record, and the bank dialog's
  open state is presentational.
- The category form's `alert` and `console.log` calls are left out. No request is sent.
- The question bank page passes `setQuestions` to the add dialog
  (src/pages/quiz/questions/page.tsx:66), but the dialog declares no such prop. So an
  added question does not appear in the bank until the page reloads. The model follows
  this: AddQuestion.FinishAdd does not touch the bank's list.
- Rendering is not modelled: previews, `URL.createObjectURL`, the media players, the
  loaders, and the edit dialog's topic select showing the question's original topic
  (src/components/EditQuestionDialog.tsx:129).
- Native form submission and constraint validation are not modelled.
  src/components/AddQuestionDialog.tsx:240-243 and :256, and
  src/components/EditQuestionDialog.tsx:262-264, render the "x" remove-media buttons
  without a `type`, inside the dialog's `<form onSubmit={handleSubmit}>`. The create
  dialogs' Cancel buttons (src/components/Topic.tsx:173-174 and
  src/pages/handbook/index.tsx:158-160) do the same, inside the forms of
  `handleCreateSection` and of the handbook's `handleSubmit` (line 144). So do the dialogs' own submit buttons, which submit
  only through that default. The `Button` component is not part of this model. If it
  keeps the browser's default `type`, those clicks are submit clicks. Whether the
  submission then happens depends on whether React has already unmounted the clicked
  button when the browser acts on the click. It also depends on the `required`
  attributes of the selects, inputs and radio groups.
- AddQuestion.ClearMedia and EditQuestion.ClearMedia: issue no request. A possible
  submission by the same click is not modelled (previous line).
- AddQuestion.BeginAdd and EditQuestion.BeginUpdate: gate only on the disabled submit
  button (CanSubmit). The `required` checks the browser makes first are not modelled.
- TopicSections.CreateSection: models the Create button. A submission through Cancel is
  not modelled.
- HandbookPage.Handbook.HandleSubmit: models the Create button. A submission through
  Cancel is not modelled.
- TopicSections.RenameSection: models `handleEditSectionName`
  (src/components/Topic.tsx:66-80), which nothing can reach. Topic.tsx:201-205 does not
  pass it to `SortableSection`, and src/components/SortableSection.tsx:19-25 does not
  take that prop. The model states what the handler would do if it were wired up.
- Seqs.AssignAt: keeps the list's length. JavaScript's `copy[k] = x` lengthens the
  array when `k` is at or past its end. That case is not modelled. The `copy[k] = x`
  callers pass only -1 or an index inside the array. The category form's call is the
  `map` form, which agrees with AssignAt for every index.
- React's batching and stale closures are not modelled. Each handler sees the state it
  started from, and handlers run one after another.

## Findings

| source | as written | input that shows it | evidently intended | confidence | as-written member | corrected member |
|---|---|---|---|---|---|---|
| src/components/Topic.tsx:91-96, src/pages/handbook/index.tsx:75-80 | The early return compares `active.id == over?.id` only. When a drag is released outside every item, `over` is null, `findIndex` gives -1, and the item is moved anyway. | sections [A, B, C], A dragged and released outside the list: the list becomes [B, C, A] and the new ranks are persisted | a drop outside the list changes nothing, as in the quiz builder's guard `over && active.id !== over.id` (src/pages/quiz/QuizCreator.tsx:178) | not executed; relies on `arrayMove` counting a negative target from the end | Ordering.DropAsWritten, Ordering.DropOutsideMovesToEnd | Ordering.Drop, Ordering.DropMoves |
| src/pages/quiz/questions/page.tsx:15-22 | `setIsDeleting(false)` runs only after the DELETE resolves. When the request rejects, the flag stays true, and the Loader is a modal dialog with no close button (src/components/Loader.tsx:12-13). | a DELETE answered with an error status | the flag is lowered on failure too, as the edit dialog does in its `catch` (src/components/EditQuestionDialog.tsx:98-100) | not executed | QuestionBank.SettleAsWritten, QuestionBank.FailedDeleteKeepsIndicator | QuestionBank.Settle |
| src/pages/handbook/content/sections/edit.tsx:66-70 | `setIsSaving(false)` runs only after the PATCH resolves. When the request rejects, the "Saving..." loader stays up for good. | a content save whose PATCH fails (network down, or an upload the server refuses) | the flag is lowered on failure too | not executed | SectionEditor.FinishSaveAsWritten, SectionEditor.FailedSaveKeepsIndicator | SectionEditor.FinishSave |
