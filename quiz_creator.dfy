/**
  The quiz builder: the settings record, and the questions moved between the bank
  (`available`) and the quiz (`selected`), which can also be reordered by dragging.
*/
module QuizCreator {
  import opened Common
  import Seqs
  import Ordering

  datatype MediaKind = NoMedia | Image | Video

  datatype QuizQuestion = QuizQuestion(id: Id, text: string, hasMedia: MediaKind)

  function QuestionId(q: QuizQuestion): Id
  {
    q.id
  }

  /** The value a settings field holds; `handleInputChange` accepts any value. */
  datatype Value = Text(text: string) | Int(n: int) | NaN | Null | Flag(flag: bool)

  /** JavaScript truthiness, which `!` negates. */
  predicate Truthy(v: Value)
  {
    match v
    case Text(s) => s != ""
    case Int(n) => n != 0
    case NaN => false
    case Null => false
    case Flag(b) => b
  }

  datatype Field = Title | LinkedSubtopic | PassingScore | TimeLimit | EnableTimeLimit | Shuffle | InstantFeedback

  datatype QuizForm = QuizForm(
    title: Value,
    linkedSubtopic: Value,
    passingScore: Value,
    timeLimit: Value,
    enableTimeLimit: Value,
    shuffle: Value,
    instantFeedback: Value)

  /** `form[field]`. */
  function Get(f: QuizForm, field: Field): Value
  {
    match field
    case Title => f.title
    case LinkedSubtopic => f.linkedSubtopic
    case PassingScore => f.passingScore
    case TimeLimit => f.timeLimit
    case EnableTimeLimit => f.enableTimeLimit
    case Shuffle => f.shuffle
    case InstantFeedback => f.instantFeedback
  }

  /** The settings the builder starts with. */
  function InitialForm(): QuizForm
  {
    QuizForm(Text(""), Text(""), Int(80), Null, Flag(false), Flag(false), Flag(false))
  }

  lemma FormExtensional(f: QuizForm, g: QuizForm)
    requires forall field :: Get(f, field) == Get(g, field)
    ensures f == g
  {
    assert Get(f, Title) == Get(g, Title) && Get(f, LinkedSubtopic) == Get(g, LinkedSubtopic);
    assert Get(f, PassingScore) == Get(g, PassingScore) && Get(f, TimeLimit) == Get(g, TimeLimit);
    assert Get(f, EnableTimeLimit) == Get(g, EnableTimeLimit) && Get(f, Shuffle) == Get(g, Shuffle);
    assert Get(f, InstantFeedback) == Get(g, InstantFeedback);
  }

  /** `handleInputChange(field, value)`: `{ ...prev, [field]: value }`. */
  function InputChange(f: QuizForm, field: Field, v: Value): (r: QuizForm)
    ensures Get(r, field) == v
    ensures forall other :: other != field ==> Get(r, other) == Get(f, other)
  {
    match field
    case Title => f.(title := v)
    case LinkedSubtopic => f.(linkedSubtopic := v)
    case PassingScore => f.(passingScore := v)
    case TimeLimit => f.(timeLimit := v)
    case EnableTimeLimit => f.(enableTimeLimit := v)
    case Shuffle => f.(shuffle := v)
    case InstantFeedback => f.(instantFeedback := v)
  }

  predicate IsToggle(field: Field)
  {
    field == EnableTimeLimit || field == Shuffle || field == InstantFeedback
  }

  /** `handleToggle(field)`: `{ ...prev, [field]: !prev[field] }`. */
  function Toggle(f: QuizForm, field: Field): (r: QuizForm)
    requires IsToggle(field)
    ensures Get(r, field) == Flag(!Truthy(Get(f, field)))
    ensures forall other :: other != field ==> Get(r, other) == Get(f, other)
  {
    InputChange(f, field, Flag(!Truthy(Get(f, field))))
  }

  /** Toggling a flag twice restores the settings. */
  lemma ToggleTwice(f: QuizForm, field: Field)
    requires IsToggle(field) && Get(f, field).Flag?
    ensures Toggle(Toggle(f, field), field) == f
  {
    FormExtensional(Toggle(Toggle(f, field), field), f);
  }

  datatype Quiz = Quiz(form: QuizForm, selected: seq<QuizQuestion>, available: seq<QuizQuestion>)

  /** The sample bank the builder starts from. */
  function SampleQuestions(): seq<QuizQuestion>
  {
    [ QuizQuestion("1", "What is the official logo of the organization?", Image),
      QuizQuestion("2", "What are the key principles in the admission policy?", NoMedia),
      QuizQuestion("3", "Describe the enrollment process", Video),
      QuizQuestion("4", "What documents are required for admission?", NoMedia),
      QuizQuestion("5", "Explain the tuition structure", Image) ]
  }

  function InitialQuiz(): Quiz
  {
    Quiz(InitialForm(), [], SampleQuestions())
  }

  /**
    The partition the two lists keep: every question is in exactly one of them, once,
    and no two questions share an id.
  */
  ghost predicate Valid(q: Quiz)
  {
    var all := q.selected + q.available;
    && (forall x, y :: x in all && y in all && x.id == y.id ==> x == y)
    && (forall x :: multiset(all)[x] <= 1)
  }

  /** Distinct ids by position give the partition's uniqueness conditions. */
  lemma {:induction false} DistinctIdsUnique(s: seq<QuizQuestion>)
    requires Seqs.DistinctBy(s, QuestionId)
    ensures forall x, y :: x in s && y in s && x.id == y.id ==> x == y
    ensures forall x :: multiset(s)[x] <= 1
  {
    if s != [] {
      var t := s[1..];
      assert Seqs.DistinctBy(t, QuestionId) by {
        forall i, j | 0 <= i < j < |t| ensures t[i].id != t[j].id {
          assert s[i + 1].id != s[j + 1].id;
        }
      }
      DistinctIdsUnique(t);
      assert s == [s[0]] + t;
      forall y | y in t ensures y.id != s[0].id {
        var j :| 0 <= j < |t| && t[j] == y;
        assert s[0].id != s[j + 1].id;
      }
    }
  }

  /** The builder starts with an empty quiz and the whole sample bank, one entry per id. */
  lemma InitialQuizValid()
    ensures Valid(InitialQuiz())
  {
    var bank := SampleQuestions();
    assert Seqs.DistinctBy(bank, QuestionId) by {
      assert bank[0].id == "1" && bank[1].id == "2" && bank[2].id == "3";
      assert bank[3].id == "4" && bank[4].id == "5";
    }
    DistinctIdsUnique(bank);
    assert InitialQuiz().selected + InitialQuiz().available == bank;
  }

  /**
    `handleDragEnd`: a drop onto another question of the quiz moves the dragged one to
    that question's former index; a drop outside, or onto itself, changes nothing.
  */
  function DragEnd(q: Quiz, active: Id, over: Option<Id>): (r: Quiz)
    requires Ordering.Has(q.selected, QuestionId, active)
    requires over.Some? ==> Ordering.Has(q.selected, QuestionId, over.value)
    ensures r.form == q.form && r.available == q.available
    ensures over.None? || over == Some(active) ==> r.selected == q.selected
    ensures over.Some? && over != Some(active) ==>
              && |r.selected| == |q.selected|
              && multiset(r.selected) == multiset(q.selected)
              && r.selected[Ordering.IndexOf(q.selected, QuestionId, over.value)]
                 == q.selected[Ordering.IndexOf(q.selected, QuestionId, active)]
  {
    match Ordering.Drop(q.selected, QuestionId, active, over)
    case None => q
    case Some(moved) =>
      Ordering.DropMoves(q.selected, QuestionId, active, over.value);
      q.(selected := moved)
  }

  /**
    `handleAddQuestion`: a question not yet in the quiz is appended to it and every
    bank entry with its id is dropped; one already in the quiz changes nothing.
  */
  function AddQuestion(q: Quiz, question: QuizQuestion): (r: Quiz)
    ensures r.form == q.form
    ensures Ordering.Has(q.selected, QuestionId, question.id) ==> r == q
    ensures !Ordering.Has(q.selected, QuestionId, question.id) ==>
              && r.selected == q.selected + [question]
              && r.available == Ordering.WithoutId(q.available, QuestionId, question.id)
              && (forall x :: x in r.available <==> x in q.available && x.id != question.id)
  {
    if Ordering.Has(q.selected, QuestionId, question.id) then q
    else q.(selected := q.selected + [question], available := Ordering.WithoutId(q.available, QuestionId, question.id))
  }

  /**
    `handleRemoveQuestion`: the first quiz entry with that id goes back to the end of
    the bank and every quiz entry with that id is dropped; an id not in the quiz
    changes nothing.
  */
  function RemoveQuestion(q: Quiz, id: Id): (r: Quiz)
    ensures r.form == q.form
    ensures !Ordering.Has(q.selected, QuestionId, id) ==> r == q
    ensures Ordering.Has(q.selected, QuestionId, id) ==>
              && 0 <= Ordering.IndexOf(q.selected, QuestionId, id)
              && r.selected == Ordering.WithoutId(q.selected, QuestionId, id)
              && (forall x :: x in r.selected <==> x in q.selected && x.id != id)
              && r.available == q.available + [q.selected[Ordering.IndexOf(q.selected, QuestionId, id)]]
  {
    var k := Ordering.IndexOf(q.selected, QuestionId, id);
    if k < 0 then q
    else q.(selected := Ordering.WithoutId(q.selected, QuestionId, id), available := q.available + [q.selected[k]])
  }

  /** In a list with one entry per id, filtering an id out removes exactly that entry. */
  lemma WithoutUnique(s: seq<QuizQuestion>, x: QuizQuestion)
    requires x in s
    requires forall y :: y in s && y.id == x.id ==> y == x
    requires multiset(s)[x] == 1
    ensures multiset(Ordering.WithoutId(s, QuestionId, x.id)) == multiset(s) - multiset{x}
  {
    var r := Ordering.WithoutId(s, QuestionId, x.id);
    forall y ensures multiset(r)[y] == (multiset(s) - multiset{x})[y] {
      if y.id == x.id && y != x {
        assert y !in s;
      }
    }
  }

  /** Adding a bank question keeps the partition and the questions of the two lists. */
  lemma AddKeepsPartition(q: Quiz, question: QuizQuestion)
    requires Valid(q) && question in q.available
    ensures !Ordering.Has(q.selected, QuestionId, question.id)
    ensures multiset(AddQuestion(q, question).selected + AddQuestion(q, question).available)
            == multiset(q.selected + q.available)
    ensures Valid(AddQuestion(q, question))
  {
    var all := q.selected + q.available;
    assert multiset(q.available)[question] == 1 && multiset(q.selected)[question] == 0 by {
      assert multiset(all) == multiset(q.selected) + multiset(q.available);
      assert question in all;
      assert multiset(all)[question] <= 1;
    }
    forall i | 0 <= i < |q.selected| ensures q.selected[i].id != question.id {
      assert q.selected[i] in all && question in all;
      assert q.selected[i] in q.selected;
    }
    var r := AddQuestion(q, question);
    assert multiset(r.selected + r.available) == multiset(all) by {
      WithoutUnique(q.available, question);
      assert multiset(all) == multiset(q.selected) + multiset(q.available);
    }
    PartitionByMultiset(q, r);
  }

  /** Removing a quiz question keeps the partition and the questions of the two lists. */
  lemma RemoveKeepsPartition(q: Quiz, id: Id)
    requires Valid(q)
    ensures multiset(RemoveQuestion(q, id).selected + RemoveQuestion(q, id).available)
            == multiset(q.selected + q.available)
    ensures Valid(RemoveQuestion(q, id))
  {
    var r := RemoveQuestion(q, id);
    if Ordering.Has(q.selected, QuestionId, id) {
      var all := q.selected + q.available;
      var x := q.selected[Ordering.IndexOf(q.selected, QuestionId, id)];
      assert x in q.selected && x in all;
      assert multiset(all) == multiset(q.selected) + multiset(q.available);
      assert multiset(all)[x] <= 1;
      assert multiset(q.selected)[x] == 1;
      forall y | y in q.selected && y.id == x.id ensures y == x {
        assert y in all;
      }
      WithoutUnique(q.selected, x);
      assert multiset(r.selected + r.available) == multiset(Ordering.WithoutId(q.selected, QuestionId, id)) + multiset(q.available) + multiset{x};
      PartitionByMultiset(q, r);
    }
  }

  /** Reordering the quiz by a drag keeps the partition and the questions of the two lists. */
  lemma DragEndKeepsPartition(q: Quiz, active: Id, over: Option<Id>)
    requires Valid(q)
    requires Ordering.Has(q.selected, QuestionId, active)
    requires over.Some? ==> Ordering.Has(q.selected, QuestionId, over.value)
    ensures multiset(DragEnd(q, active, over).selected + DragEnd(q, active, over).available)
            == multiset(q.selected + q.available)
    ensures Valid(DragEnd(q, active, over))
  {
    var r := DragEnd(q, active, over);
    assert multiset(r.selected + r.available) == multiset(q.selected + q.available) by {
      assert multiset(r.selected + r.available) == multiset(r.selected) + multiset(r.available);
      assert multiset(q.selected + q.available) == multiset(q.selected) + multiset(q.available);
    }
    PartitionByMultiset(q, r);
  }

  lemma PartitionByMultiset(q: Quiz, r: Quiz)
    requires Valid(q)
    requires multiset(r.selected + r.available) == multiset(q.selected + q.available)
    ensures Valid(r)
  {
    var all, all' := q.selected + q.available, r.selected + r.available;
    forall x | x in all' ensures x in all {
      assert multiset(all')[x] > 0;
    }
  }
}
