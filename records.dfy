/** The records the REST backend returns, as the screens read them. */
module Records {
  import opened Common

  /** A rich-text document as the editor hands it over (its JSON is not modelled further). */
  datatype Doc = Doc(json: string)

  /** An uploaded image or video already stored on the server. */
  datatype StoredMedia = StoredMedia(url: string, kind: string)

  /**
    A handbook section. The shared declaration has `_id`, an optional title and content;
    the flat handbook list also reads `order`, and the content editor reads `medias`.
  */
  datatype Section = Section(
    id: Id,
    title: Option<string>,
    order: Option<int>,
    content: Option<Doc>,
    medias: seq<StoredMedia>)

  /** A question of the question bank. */
  datatype Question = Question(
    id: Id,
    topicId: Id,
    sectionId: Id,
    questionType: string,
    answer: string,
    text: string,
    explanation: Option<string>,
    media: Option<StoredMedia>,
    choices: seq<string>)

  const MultipleChoice: string := "multiple-choice"

  /** The `_id` the lists are searched and filtered by. */
  function SectionId(s: Section): Id { s.id }

  function QuestionId(q: Question): Id { q.id }
}
