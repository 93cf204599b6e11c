/** The question bank's delete: a busy indicator around one DELETE and a filter of the list. */
module QuestionBank {
  import opened Common
  import opened Records
  import opened Api
  import Ordering

  /** `questions` and `isDeleting`; the indicator is a dialog without a close button. */
  datatype Bank = Bank(questions: seq<Question>, isDeleting: bool)

  /** `handleDelete` up to the request: the indicator goes up and the DELETE is sent. */
  function BeginDelete(b: Bank, id: Id): (r: (Bank, seq<Request>))
    ensures r.0.isDeleting && r.0.questions == b.questions
    ensures r.1 == [Delete(QuestionPath(id))]
  {
    (b.(isDeleting := true), [Delete(QuestionPath(id))])
  }

  /**
    The rest of `handleDelete` as written. After the DELETE resolves the question is
    filtered out and the indicator lowered; when it throws nothing after the `await`
    runs, so the list is kept and the indicator stays up.
  */
  function SettleAsWritten(busy: Bank, id: Id, ok: bool): (r: Bank)
    ensures ok ==> r == Bank(Ordering.WithoutId(busy.questions, QuestionId, id), false)
    ensures !ok ==> r == busy
  {
    if ok then Bank(Ordering.WithoutId(busy.questions, QuestionId, id), false) else busy
  }

  /** The rest of `handleDelete` with the indicator lowered whatever the outcome. */
  function Settle(busy: Bank, id: Id, ok: bool): (r: Bank)
    ensures !r.isDeleting
    ensures ok ==> forall q :: q in r.questions <==> q in busy.questions && q.id != id
    ensures !ok ==> r.questions == busy.questions
  {
    if ok then SettleAsWritten(busy, id, ok) else busy.(isDeleting := false)
  }

  /**
    As written, a failed delete leaves the indicator covering the screen with nothing
    left to lower it; the corrected settle lowers it and keeps the list.
  */
  lemma FailedDeleteKeepsIndicator(b: Bank, id: Id)
    ensures SettleAsWritten(BeginDelete(b, id).0, id, false).isDeleting
    ensures SettleAsWritten(BeginDelete(b, id).0, id, false).questions == b.questions
    ensures !Settle(BeginDelete(b, id).0, id, false).isDeleting
    ensures Settle(BeginDelete(b, id).0, id, false).questions == b.questions
  {
  }

  /** A delete of `id` that succeeds leaves exactly the other questions, in their order. */
  lemma DeleteRemovesOnly(questions: seq<Question>, id: Id, k: nat)
    requires k < |questions| && questions[k].id == id
    requires forall i :: 0 <= i < |questions| && i != k ==> questions[i].id != id
    ensures Settle(BeginDelete(Bank(questions, false), id).0, id, true).questions
            == questions[..k] + questions[k + 1..]
  {
    var before, after := questions[..k], questions[k + 1..];
    assert questions == before + [questions[k]] + after;
    assert forall i :: 0 <= i < |after| ==> after[i] == questions[k + 1 + i];
    Ordering.WithoutSoleId(before, questions[k], after, QuestionId);
  }
}
