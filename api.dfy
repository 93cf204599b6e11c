/**
  The requests the screens send. Nothing is sent: each handler returns the requests it
  would issue, in the order it issues them, and takes the server's answers as inputs.
*/
module Api {
  import opened Common
  import opened Records

  /** What a `FormData` entry holds. */
  datatype FormValue =
    | Text(text: string)
    | Blob(file: File)
    | DocJson(doc: Doc)                       // JSON.stringify(content)
    | MediaListJson(medias: seq<StoredMedia>)  // JSON.stringify(storedMedias)
    | ChoiceListJson(choices: seq<Option<string>>)  // JSON.stringify(choices)

  /** One `formData.append(name, value)`. */
  datatype FormField = FormField(name: string, value: FormValue)

  datatype Body =
    | OrderUpdate(order: int)                        // { order }
    | TitleUpdate(title: string)                     // { title }
    | NewSection(topicId: Option<Id>, title: string) // { topic_id?, title }
    | Multipart(fields: seq<FormField>)              // a FormData

  datatype Request =
    | Get(path: string)
    | Post(path: string, body: Body)
    | Patch(path: string, body: Body)
    | Put(path: string, body: Body)
    | Delete(path: string)

  function SectionPath(id: Id): string { "/sections/" + id }

  function QuestionPath(id: Id): string { "/questions/" + id }

  /** Different sections are addressed by different paths. */
  lemma SectionPathInjective(a: Id, b: Id)
    requires SectionPath(a) == SectionPath(b)
    ensures a == b
  {
    var n := |"/sections/"|;
    assert a == SectionPath(a)[n..];
    assert b == SectionPath(b)[n..];
  }
}
