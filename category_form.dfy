/**
  The "Add Category" form: a name, a description and a growing list of section titles,
  and a submit that validates the name and builds the category payload.
*/
module CategoryForm {
  import opened Common
  import opened JsStrings
  import Seqs

  datatype Form = Form(name: string, description: string, sections: seq<string>)

  /** What the form starts as and is reset to. */
  const EmptyForm := Form("", "", [])

  /** The payload an accepted submit produces. */
  datatype Category = Category(name: string, description: string, sections: seq<string>)

  /** `addSection`: one more, empty, section row. */
  function AddSection(f: Form): (r: Form)
    ensures r.name == f.name && r.description == f.description
    ensures |r.sections| == |f.sections| + 1
    ensures r.sections[..|f.sections|] == f.sections && r.sections[|f.sections|] == ""
  {
    f.(sections := f.sections + [""])
  }

  /** `updateSection(idx, value)`: only row `idx` changes; an index outside the list changes nothing. */
  function UpdateSection(f: Form, idx: int, value: string): (r: Form)
    ensures r.name == f.name && r.description == f.description
    ensures |r.sections| == |f.sections|
    ensures 0 <= idx < |f.sections| ==> r.sections[idx] == value
    ensures forall j :: 0 <= j < |f.sections| && j != idx ==> r.sections[j] == f.sections[j]
  {
    f.(sections := Seqs.AssignAt(f.sections, idx, value))
  }

  /** `removeSection(idx)`: row `idx` goes, the others close up in order. */
  function RemoveSection(f: Form, idx: int): (r: Form)
    ensures r.name == f.name && r.description == f.description
    ensures 0 <= idx < |f.sections| ==> r.sections == f.sections[..idx] + f.sections[idx + 1..]
    ensures !(0 <= idx < |f.sections|) ==> r == f
  {
    f.(sections := Seqs.RemoveAt(f.sections, idx))
  }

  /** The rows after `map(trim)`. */
  function TrimAll(s: seq<string>): (r: seq<string>)
    ensures |r| == |s| && forall i :: 0 <= i < |s| ==> r[i] == Trim(s[i])
  {
    seq(|s|, i requires 0 <= i < |s| => Trim(s[i]))
  }

  /**
    The section titles of the payload, row by row: each row trimmed, and dropped when
    nothing is left of it.
  */
  function CleanSections(s: seq<string>): (r: seq<string>)
    ensures |r| <= |s|
    ensures forall i :: 0 <= i < |r| ==> r[i] != [] && Trim(r[i]) == r[i]
  {
    if s == [] then []
    else
      var t := Trim(s[0]);
      var rest := CleanSections(s[1..]);
      if t == [] then rest
      else
        TrimIdempotent(s[0]);
        [t] + rest
  }

  /** `sections.map((s) => s.trim()).filter(Boolean)`, exactly: the empty string is the only falsy one. */
  lemma {:induction false} CleanSectionsIsTrimThenFilter(s: seq<string>)
    ensures CleanSections(s) == Seqs.Filter(TrimAll(s), (t: string) => t != [])
  {
    if s != [] {
      var keep := (t: string) => t != [];
      var m := TrimAll(s);
      CleanSectionsIsTrimThenFilter(s[1..]);
      assert m[0] == Trim(s[0]);
      assert m[1..] == TrimAll(s[1..]);
      var rest := Seqs.Filter(m[1..], keep);
      assert Seqs.Filter(m, keep) == (if keep(m[0]) then [m[0]] else []) + rest;
      if m[0] == [] {
        assert [] + rest == rest;
      }
    }
  }

  /** Rows are cleaned one by one, so cleaning two lists of rows appends the results. */
  lemma {:induction false} CleanSectionsConcat(a: seq<string>, b: seq<string>)
    ensures CleanSections(a + b) == CleanSections(a) + CleanSections(b)
  {
    if a == [] {
      assert a + b == b;
    } else {
      assert (a + b)[1..] == a[1..] + b;
      CleanSectionsConcat(a[1..], b);
    }
  }

  /** Cleaned rows are already clean. */
  lemma {:induction false} CleanSectionsIdempotent(s: seq<string>)
    ensures CleanSections(CleanSections(s)) == CleanSections(s)
  {
    if s != [] {
      var t := Trim(s[0]);
      TrimIdempotent(s[0]);
      CleanSectionsIdempotent(s[1..]);
      var head := if t == [] then [] else [t];
      CleanSectionsConcat(head, CleanSections(s[1..]));
      if t != [] {
        assert CleanSections(head) == head by {
          assert head[1..] == [];
        }
      }
    }
  }

  /** What `handleSubmit` leaves behind: the new form and, when accepted, the payload. */
  datatype Outcome = Outcome(form: Form, payload: Option<Category>)

  /**
    `handleSubmit`: a name that is blank once trimmed is refused (an alert) and the form
    is left as it was; otherwise the trimmed name and description and the cleaned rows
    form the payload and the form is reset.
  */
  function Submit(f: Form): (r: Outcome)
    ensures Trim(f.name) == [] ==> r == Outcome(f, None)
    ensures Trim(f.name) != [] ==>
              && r.form == EmptyForm
              && r.payload == Some(Category(Trim(f.name), Trim(f.description), CleanSections(f.sections)))
  {
    if Trim(f.name) == [] then Outcome(f, None)
    else Outcome(EmptyForm, Some(Category(Trim(f.name), Trim(f.description), CleanSections(f.sections))))
  }

  /**
    A submit is accepted exactly when the name has a non-whitespace character, and an
    accepted payload has a non-blank name and description and section titles that are
    all non-empty and without surrounding whitespace.
  */
  lemma SubmitAccepts(f: Form)
    ensures Submit(f).payload.Some? <==> exists k :: 0 <= k < |f.name| && !IsWhitespace(f.name[k])
    ensures Submit(f).payload.Some? ==>
              var c := Submit(f).payload.value;
              && c.name != [] && Trim(c.name) == c.name && Trim(c.description) == c.description
              && (forall i :: 0 <= i < |c.sections| ==> c.sections[i] != [] && Trim(c.sections[i]) == c.sections[i])
  {
    TrimBlank(f.name);
    if Trim(f.name) != [] {
      var c := Submit(f).payload.value;
      assert c == Category(Trim(f.name), Trim(f.description), CleanSections(f.sections));
      TrimIdempotent(f.name);
      TrimIdempotent(f.description);
    }
  }

  /** Resubmitting the accepted payload as a form yields the same payload. */
  lemma SubmitStable(f: Form)
    requires Submit(f).payload.Some?
    ensures var c := Submit(f).payload.value;
            Submit(Form(c.name, c.description, c.sections)).payload == Some(c)
  {
    TrimIdempotent(f.name);
    TrimIdempotent(f.description);
    CleanSectionsIdempotent(f.sections);
  }
}
