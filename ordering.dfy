/**
  Reordering a list by drag and drop and persisting dense 1-based ranks: the logic the
  topic's section list, the flat section list and the quiz builder share.
*/
module Ordering {
  import opened Common
  import opened Records
  import opened Api
  import Seqs

  /**
    `arrayMove(s, from, to)` of @dnd-kit/sortable: on a copy, take out the element at
    `from` and insert it at `to`, where a negative `to` counts from the end of the array
    as it was before the removal.
  */
  function ArrayMove<T>(s: seq<T>, from: nat, to: int): (r: seq<T>)
    requires from < |s| && -|s| <= to < |s|
    ensures |r| == |s|
  {
    Seqs.Move(s, from, if to < 0 then |s| + to else to)
  }

  predicate Has<T>(s: seq<T>, idOf: T -> Id, id: Id)
  {
    exists i :: 0 <= i < |s| && idOf(s[i]) == id
  }

  /** `s.findIndex((x) => x._id === id)`: the first entry with that id, or -1 when there is none. */
  function IndexOf<T>(s: seq<T>, idOf: T -> Id, id: Id): (k: int)
    ensures -1 <= k < |s|
    ensures k == -1 <==> !Has(s, idOf, id)
    ensures 0 <= k ==> idOf(s[k]) == id && forall i :: 0 <= i < k ==> idOf(s[i]) != id
  {
    var k := Seqs.FindIndex(s, (x: T) => idOf(x) == id);
    assert k == -1 ==> forall i :: 0 <= i < |s| ==> ((x: T) => idOf(x) == id)(s[i]) == false;
    k
  }

  /**
    The drag-end handler of the topic's sections and of the flat section list, as
    written: it returns early only when the drop target is the dragged item itself, so
    a drop outside every item (`over` is null, `findIndex` gives -1) still moves.
    `None` stands for the early return, `Some(r)` for the new list.
  */
  function DropAsWritten<T>(s: seq<T>, idOf: T -> Id, active: Id, over: Option<Id>): (r: Option<seq<T>>)
    requires Has(s, idOf, active)
    ensures r.None? <==> over == Some(active)
    ensures r.Some? ==> |r.value| == |s|
  {
    if over == Some(active) then None
    else
      var from := IndexOf(s, idOf, active);
      var to := if over.None? then -1 else IndexOf(s, idOf, over.value);
      Some(ArrayMove(s, from, to))
  }

  /**
    The drag-end handler with the guard the quiz builder has (`over && active.id !==
    over.id`): a drop outside the list, or onto the dragged item, changes nothing.
  */
  function Drop<T>(s: seq<T>, idOf: T -> Id, active: Id, over: Option<Id>): (r: Option<seq<T>>)
    requires Has(s, idOf, active)
    ensures r.None? <==> over.None? || over == Some(active)
  {
    if over.None? then None else DropAsWritten(s, idOf, active, over)
  }

  /**
    A real drop is the standard array move from the dragged item's index to the target's
    former index: a permutation in which the dragged item lands on the target's index,
    the items in between shift by one towards the dragged item's old place, and all
    others stay put.
  */
  lemma DropMoves<T>(s: seq<T>, idOf: T -> Id, active: Id, target: Id)
    requires Has(s, idOf, active) && Has(s, idOf, target) && active != target
    ensures Drop(s, idOf, active, Some(target)).Some?
    ensures var r := Drop(s, idOf, active, Some(target)).value;
            var from := IndexOf(s, idOf, active);
            var to := IndexOf(s, idOf, target);
            && 0 <= from < |s| && 0 <= to < |s| && from != to
            && |r| == |s| && multiset(r) == multiset(s)
            && r[to] == s[from]
            && (forall i :: 0 <= i < |s| && i < from && i < to ==> r[i] == s[i])
            && (forall i :: 0 <= i < |s| && from < i && to < i ==> r[i] == s[i])
            && (forall i :: from <= i < to ==> r[i] == s[i + 1])
            && (forall i :: to < i <= from ==> r[i] == s[i - 1])
  {
    var from := IndexOf(s, idOf, active);
    var to := IndexOf(s, idOf, target);
    Seqs.MovePermutes(s, from, to);
    Seqs.MoveShape(s, from, to);
  }

  /**
    The bug of the as-written handler: a drop outside every item moves the dragged item
    to the end of the list.
  */
  lemma DropOutsideMovesToEnd<T>(s: seq<T>, idOf: T -> Id, active: Id)
    requires Has(s, idOf, active)
    ensures var k := IndexOf(s, idOf, active);
            && 0 <= k < |s|
            && DropAsWritten(s, idOf, active, None) == Some(s[..k] + s[k + 1..] + [s[k]])
            && Drop(s, idOf, active, None) == None
  {
    var k := IndexOf(s, idOf, active);
    var rest := s[..k] + s[k + 1..];
    assert rest[..|s| - 1] == rest && rest[|s| - 1..] == [];
    assert ArrayMove(s, k, -1) == Seqs.Move(s, k, |s| - 1) == rest + [s[k]];
  }

  /** `s.filter((x) => x._id !== id)`: every entry with that id goes, the rest keep their order. */
  function WithoutId<T(!new)>(s: seq<T>, idOf: T -> Id, id: Id): (r: seq<T>)
    ensures forall x :: x in r <==> x in s && idOf(x) != id
  {
    Seqs.Filter(s, (x: T) => idOf(x) != id)
  }

  /** Entries are dropped one by one, so dropping from two lists appends the results. */
  lemma WithoutIdConcat<T(!new)>(a: seq<T>, b: seq<T>, idOf: T -> Id, id: Id)
    ensures WithoutId(a + b, idOf, id) == WithoutId(a, idOf, id) + WithoutId(b, idOf, id)
  {
    Seqs.FilterConcat(a, b, (x: T) => idOf(x) != id);
  }

  /** Dropping an id no entry carries changes nothing. */
  lemma WithoutAbsentId<T(!new)>(s: seq<T>, idOf: T -> Id, id: Id)
    requires forall i :: 0 <= i < |s| ==> idOf(s[i]) != id
    ensures WithoutId(s, idOf, id) == s
  {
    Seqs.FilterKeepsAll(s, (x: T) => idOf(x) != id);
  }

  /** Dropping the id of a single entry closes the gap it leaves. */
  lemma WithoutSoleId<T(!new)>(before: seq<T>, x: T, after: seq<T>, idOf: T -> Id)
    requires forall i :: 0 <= i < |before| ==> idOf(before[i]) != idOf(x)
    requires forall i :: 0 <= i < |after| ==> idOf(after[i]) != idOf(x)
    ensures WithoutId(before + [x] + after, idOf, idOf(x)) == before + after
  {
    var id := idOf(x);
    Seqs.FilterDropsOne(before, x, after, (y: T) => idOf(y) != id);
  }

  /** Of three entries with the middle one's id unique, dropping that id leaves the outer two. */
  lemma WithoutMiddle<T(!new)>(a: T, b: T, c: T, idOf: T -> Id)
    requires idOf(a) != idOf(b) && idOf(c) != idOf(b)
    ensures WithoutId([a, b, c], idOf, idOf(b)) == [a, c]
  {
    assert [a, b, c] == [a] + [b] + [c];
    WithoutSoleId([a], b, [c], idOf);
    assert [a] + [c] == [a, c];
  }

  /** The PATCH giving the section at 0-based position `i` the rank `i + 1`. */
  function RankUpdate(section: Section, i: nat): Request
  {
    Patch(SectionPath(section.id), OrderUpdate(i + 1))
  }

  /** The requests of `list.forEach((section, index) => api.patch(..., { order: index + 1 }))`. */
  function RankRequests(s: seq<Section>): seq<Request>
  {
    seq(|s|, (i: int) requires 0 <= i < |s| => RankUpdate(s[i], i))
  }

  /**
    The `forEach` loop that persists the ranks: one order PATCH per position, the
    section at position `i` getting `order = i + 1`, issued front to back.
  */
  method PersistOrder(sections: seq<Section>) returns (reqs: seq<Request>)
    ensures |reqs| == |sections|
    ensures forall i :: 0 <= i < |sections| ==>
              reqs[i] == Patch(SectionPath(sections[i].id), OrderUpdate(i + 1))
    ensures reqs == RankRequests(sections)
  {
    reqs := [];
    var i := 0;
    while i < |sections|
      invariant 0 <= i <= |sections|
      invariant |reqs| == i
      invariant forall j :: 0 <= j < i ==> reqs[j] == RankUpdate(sections[j], j)
    {
      reqs := reqs + [RankUpdate(sections[i], i)];
      i := i + 1;
    }
  }

  predicate SetsOrderOf(r: Request, path: string)
  {
    r.Patch? && r.path == path && r.body.OrderUpdate?
  }

  /**
    The `order` the server holds per path once the order PATCHes in `done` have
    completed, in the order `done` lists them.
  */
  function ApplyOrders(store: map<string, int>, done: seq<Request>): map<string, int>
    decreases |done|
  {
    if done == [] then store
    else
      var r := done[0];
      var next := if r.Patch? && r.body.OrderUpdate? then store[r.path := r.body.order] else store;
      ApplyOrders(next, done[1..])
  }

  lemma {:induction false} ApplyUntouched(store: map<string, int>, done: seq<Request>, path: string)
    requires forall r :: r in done ==> !SetsOrderOf(r, path)
    ensures path in ApplyOrders(store, done) <==> path in store
    ensures path in store ==> ApplyOrders(store, done)[path] == store[path]
    decreases |done|
  {
    if done != [] {
      var r := done[0];
      var next := if r.Patch? && r.body.OrderUpdate? then store[r.path := r.body.order] else store;
      assert r in done;
      forall r' | r' in done[1..] ensures !SetsOrderOf(r', path) {
        assert r' in done;
      }
      ApplyUntouched(next, done[1..], path);
    }
  }

  /** Absolute ranks make repeated or reordered completions harmless. */
  lemma {:induction false} ApplySettles(store: map<string, int>, done: seq<Request>, path: string, v: int)
    requires exists r :: r in done && SetsOrderOf(r, path)
    requires forall r :: r in done && SetsOrderOf(r, path) ==> r.body.order == v
    ensures path in ApplyOrders(store, done) && ApplyOrders(store, done)[path] == v
    decreases |done|
  {
    var r := done[0];
    var next := if r.Patch? && r.body.OrderUpdate? then store[r.path := r.body.order] else store;
    assert r in done;
    forall r' | r' in done[1..] && SetsOrderOf(r', path) ensures r'.body.order == v {
      assert r' in done;
    }
    if exists r' :: r' in done[1..] && SetsOrderOf(r', path) {
      ApplySettles(next, done[1..], path, v);
    } else {
      var w :| w in done && SetsOrderOf(w, path);
      assert w == r;
      ApplyUntouched(next, done[1..], path);
    }
  }

  /**
    Whatever order the rank PATCHes of a reorder complete in, and even if some are
    repeated, the server ends up with `order = i + 1` for the section at position `i`
    and every other path keeps its order, provided the section ids are distinct.
  */
  lemma {:induction false} RanksConverge(store: map<string, int>, s: seq<Section>, done: seq<Request>)
    requires Seqs.DistinctBy(s, SectionId)
    requires forall r :: r in done ==> r in RankRequests(s)
    requires forall r :: r in RankRequests(s) ==> r in done
    ensures forall i :: 0 <= i < |s| ==>
              SectionPath(s[i].id) in ApplyOrders(store, done)
              && ApplyOrders(store, done)[SectionPath(s[i].id)] == i + 1
    ensures forall path :: path in store && (forall i :: 0 <= i < |s| ==> path != SectionPath(s[i].id)) ==>
              path in ApplyOrders(store, done) && ApplyOrders(store, done)[path] == store[path]
  {
    var issued := RankRequests(s);
    forall i | 0 <= i < |s|
      ensures SectionPath(s[i].id) in ApplyOrders(store, done)
      ensures ApplyOrders(store, done)[SectionPath(s[i].id)] == i + 1
    {
      var path := SectionPath(s[i].id);
      assert issued[i] in issued;
      forall r | r in done && SetsOrderOf(r, path) ensures r.body.order == i + 1 {
        var j :| 0 <= j < |issued| && issued[j] == r;
        SectionPathInjective(s[j].id, s[i].id);
        assert j == i;
      }
      ApplySettles(store, done, path, i + 1);
    }
    forall path | path in store && (forall i :: 0 <= i < |s| ==> path != SectionPath(s[i].id))
      ensures path in ApplyOrders(store, done) && ApplyOrders(store, done)[path] == store[path]
    {
      forall r | r in done ensures !SetsOrderOf(r, path) {
        var j :| 0 <= j < |issued| && issued[j] == r;
      }
      ApplyUntouched(store, done, path);
    }
  }
}
