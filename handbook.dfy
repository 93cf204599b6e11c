/**
  The flat handbook section list. Besides the list it keeps a `firstMount` ref, and an
  effect that runs after every change of the list re-persists the ranks of the whole
  list, so that creates, drags and deletes all end in dense ranks 1..N.
*/
module HandbookPage {
  import opened Common
  import opened Records
  import opened Api
  import Ordering

  class Handbook {
    var sections: seq<Section>
    /** The `firstMount` ref: still set until the first non-empty list has been seen. */
    var firstMount: bool
    /** Every request issued so far, in issue order. */
    var log: seq<Request>

    /** Mounting: empty list, the ref set, and the GET that fetches the list. */
    constructor ()
      ensures sections == [] && firstMount && log == [Get("sections")]
    {
      sections := [];
      firstMount := true;
      log := [Get("sections")];
    }

    /**
      `setSections(s)` and then the effect on `[sections]`: an empty list issues
      nothing; the first non-empty list only clears the ref; every later list issues,
      for the section at position i, a PATCH setting its order to i + 1.
    */
    method SetSections(s: seq<Section>)
      modifies this
      ensures sections == s
      ensures firstMount == (old(firstMount) && s == [])
      ensures log == old(log) + (if s == [] || old(firstMount) then [] else Ordering.RankRequests(s))
    {
      sections := s;
      if |s| == 0 {
        return;
      }
      if firstMount {
        firstMount := false;
        return;
      }
      var requests := Ordering.PersistOrder(s);
      log := log + requests;
    }

    /** The answer to the mount-time GET arrives. */
    method Fetched(fetched: seq<Section>)
      modifies this
      ensures sections == fetched
      ensures firstMount == (old(firstMount) && fetched == [])
      ensures log == old(log) + (if fetched == [] || old(firstMount) then [] else Ordering.RankRequests(fetched))
    {
      SetSections(fetched);
    }

    /** `handleSubmit`: POST the title, then append the server's record (`None`: the POST threw). */
    method HandleSubmit(title: string, created: Option<Section>)
      modifies this
      ensures created.None? ==>
                sections == old(sections) && firstMount == old(firstMount)
                && log == old(log) + [Post("sections", NewSection(None, title))]
      ensures created.Some? ==>
                && sections == old(sections) + [created.value]
                && !firstMount
                && log == old(log) + [Post("sections", NewSection(None, title))]
                         + (if old(firstMount) then [] else Ordering.RankRequests(sections))
    {
      log := log + [Post("sections", NewSection(None, title))];
      if created.Some? {
        SetSections(sections + [created.value]);
      }
    }

    /**
      `handleDragEnd`, with a drop outside the list treated as no drop (see
      `Ordering.DropAsWritten` for the handler as written).
    */
    method HandleDragEnd(active: Id, over: Option<Id>)
      requires Ordering.Has(sections, SectionId, active)
      requires over.Some? ==> Ordering.Has(sections, SectionId, over.value)
      modifies this
      ensures over.None? || over == Some(active) ==>
                sections == old(sections) && firstMount == old(firstMount) && log == old(log)
      ensures over.Some? && over != Some(active) ==>
                && sections == Ordering.Drop(old(sections), SectionId, active, over).value
                && multiset(sections) == multiset(old(sections))
                && !firstMount
                && log == old(log) + (if old(firstMount) then [] else Ordering.RankRequests(sections))
    {
      var moved := Ordering.Drop(sections, SectionId, active, over);
      if moved.Some? {
        Ordering.DropMoves(sections, SectionId, active, over.value);
        SetSections(moved.value);
      }
    }

    /**
      `handleDelete`: DELETE, then drop the entries with that id; the effect then
      re-ranks the survivors 1..N-1, which closes the gap the delete left.
    */
    method HandleDelete(id: Id, ok: bool)
      modifies this
      ensures !ok ==> sections == old(sections) && firstMount == old(firstMount)
                      && log == old(log) + [Delete(SectionPath(id))]
      ensures ok ==>
                && sections == Ordering.WithoutId(old(sections), SectionId, id)
                && firstMount == (old(firstMount) && sections == [])
                && (forall x :: x in sections <==> x in old(sections) && x.id != id)
                && log == old(log) + [Delete(SectionPath(id))]
                         + (if sections == [] || old(firstMount) then [] else Ordering.RankRequests(sections))
    {
      log := log + [Delete(SectionPath(id))];
      if ok {
        SetSections(Ordering.WithoutId(sections, SectionId, id));
      }
    }
  }

  /** Deleting the middle one of three sections leaves the outer two. */
  lemma DropMiddle(a: Section, b: Section, c: Section)
    requires a.id != b.id && b.id != c.id
    ensures Ordering.WithoutId([a, b, c], SectionId, b.id) == [a, c]
  {
    Ordering.WithoutMiddle(a, b, c, SectionId);
  }

  lemma RanksOfTwo(a: Section, c: Section)
    ensures Ordering.RankRequests([a, c])
            == [Patch(SectionPath(a.id), OrderUpdate(1)), Patch(SectionPath(c.id), OrderUpdate(2))]
  {
    var r := Ordering.RankRequests([a, c]);
    assert |r| == 2 && r[0] == Patch(SectionPath(a.id), OrderUpdate(1)) && r[1] == Patch(SectionPath(c.id), OrderUpdate(2));
  }

  /**
    A client of the page: once the fetched list has been seen, deleting the middle one
    of three sections re-ranks the two survivors 1 and 2.
  */
  method DeleteCompacts(a: Section, b: Section, c: Section)
    requires a.id != b.id && b.id != c.id
  {
    var ranks := [Patch(SectionPath(a.id), OrderUpdate(1)), Patch(SectionPath(c.id), OrderUpdate(2))];
    DropMiddle(a, b, c);
    RanksOfTwo(a, c);
    var page := new Handbook();
    page.Fetched([a, b, c]);
    assert page.log == [Get("sections")];
    page.HandleDelete(b.id, true);
    assert page.sections == [a, c];
    assert page.log == [Get("sections"), Delete(SectionPath(b.id))] + ranks;
    assert !page.firstMount;
  }
}
