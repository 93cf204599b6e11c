/**
  The section list of one topic: create, rename, delete and drag-reorder, each a step
  from the old list to the new list plus the requests it issued. The list itself is
  owned by the parent screen and replaced through `setSections`.
*/
module TopicSections {
  import opened Common
  import opened Records
  import opened Api
  import Seqs
  import Ordering

  /** What a handler leaves behind: the new list and the requests it issued, in order. */
  datatype Step = Step(sections: seq<Section>, requests: seq<Request>)

  /**
    `handleCreateSection`: POST the title under this topic, then append the record the
    server returns (`created`; `None` when the request throws).
  */
  function CreateSection(sections: seq<Section>, topicId: Id, title: string, created: Option<Section>): (r: Step)
    ensures r.requests == [Post("/sections", NewSection(Some(topicId), title))]
    ensures created.Some? ==>
              && |r.sections| == |sections| + 1
              && r.sections[..|sections|] == sections
              && r.sections[|sections|] == created.value
    ensures created.None? ==> r.sections == sections
  {
    var requests := [Post("/sections", NewSection(Some(topicId), title))];
    match created
    case None => Step(sections, requests)
    case Some(c) => Step(sections + [c], requests)
  }

  /**
    `handleEditSectionName`: PATCH the title, then write the server's record into the
    first entry with that id. Without such an entry `findIndex` gives -1 and no element
    changes.
  */
  function RenameSection(sections: seq<Section>, sectionId: Id, title: string, updated: Option<Section>): (r: Step)
    ensures r.requests == [Patch(SectionPath(sectionId), TitleUpdate(title))]
    ensures |r.sections| == |sections|
    ensures updated.None? || !Ordering.Has(sections, SectionId, sectionId) ==> r.sections == sections
    ensures updated.Some? ==>
              forall j :: 0 <= j < |sections| ==>
                r.sections[j] == if j == Ordering.IndexOf(sections, SectionId, sectionId)
                                 then updated.value else sections[j]
  {
    var requests := [Patch(SectionPath(sectionId), TitleUpdate(title))];
    match updated
    case None => Step(sections, requests)
    case Some(u) =>
      Step(Seqs.AssignAt(sections, Ordering.IndexOf(sections, SectionId, sectionId), u), requests)
  }

  /**
    `handleDeleteSection`: DELETE, then drop every entry with that id. No rank is
    rewritten, so the survivors keep the orders they had, gaps included.
  */
  function DeleteSection(sections: seq<Section>, id: Id, ok: bool): (r: Step)
    ensures r.requests == [Delete(SectionPath(id))]
    ensures !ok ==> r.sections == sections
    ensures ok ==> forall x :: x in r.sections <==> x in sections && x.id != id
    ensures ok ==> r.sections == Ordering.WithoutId(sections, SectionId, id)
  {
    var requests := [Delete(SectionPath(id))];
    if ok then Step(Ordering.WithoutId(sections, SectionId, id), requests) else Step(sections, requests)
  }

  /** A delete here never touches any order the server holds. */
  lemma DeleteKeepsServerOrders(store: map<string, int>, sections: seq<Section>, id: Id, ok: bool)
    ensures Ordering.ApplyOrders(store, DeleteSection(sections, id, ok).requests) == store
  {
    var requests := DeleteSection(sections, id, ok).requests;
    assert requests[1..] == [];
  }

  /**
    `handleDragEnd`, with a drop outside the list treated as no drop (see
    `Ordering.DropAsWritten` for the handler as written): the new list is the array move,
    and one order PATCH per section persists the ranks 1..N in the new list order.
  */
  method HandleDragEnd(sections: seq<Section>, active: Id, over: Option<Id>) returns (r: Step)
    requires Ordering.Has(sections, SectionId, active)
    requires over.Some? ==> Ordering.Has(sections, SectionId, over.value)
    ensures over.None? || over == Some(active) ==> r == Step(sections, [])
    ensures over.Some? && over != Some(active) ==>
              && r.sections == Ordering.Drop(sections, SectionId, active, over).value
              && multiset(r.sections) == multiset(sections)
              && r.sections[Ordering.IndexOf(sections, SectionId, over.value)]
                 == sections[Ordering.IndexOf(sections, SectionId, active)]
              && |r.requests| == |r.sections|
              && forall i :: 0 <= i < |r.sections| ==>
                   r.requests[i] == Patch(SectionPath(r.sections[i].id), OrderUpdate(i + 1))
  {
    var moved := Ordering.Drop(sections, SectionId, active, over);
    if moved.None? {
      return Step(sections, []);
    }
    Ordering.DropMoves(sections, SectionId, active, over.value);
    var requests := Ordering.PersistOrder(moved.value);
    r := Step(moved.value, requests);
  }
}
