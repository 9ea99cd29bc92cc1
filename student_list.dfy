/** The records view on the client: saving an edited record (which
    recomputes the cutoff from the marks), the search box's filter, and the
    visit and update counters it displays. */
module StudentList {
  import opened Js
  import opened Fields
  import StudentForm

  /** The update request `handleUpdate` sends: the record's id and body. */
  datatype UpdateCall = UpdateCall(id: Value, body: Record)

  // ---------------------------------------------------------------------
  // Saving an edit

  /** All three marks are truthy; a mark of 0 counts as not entered. */
  predicate MarksEntered(rec: Record) {
    Truthy(Get(rec, PhysicsMarks)) && Truthy(Get(rec, ChemistryMarks)) && Truthy(Get(rec, MathsMarks))
  }

  /** `Number(maths) + (Number(physics) + Number(chemistry)) / 2` */
  function EditedCutoff(rec: Record): Value {
    NumberAdd(ToNumber(Get(rec, MathsMarks)),
              NumberHalf(NumberAdd(ToNumber(Get(rec, PhysicsMarks)), ToNumber(Get(rec, ChemistryMarks)))))
  }

  /** Numeric marks give the form's cutoff formula. */
  lemma EditedCutoffFormula(rec: Record, p: real, c: real, m: real)
    requires Get(rec, PhysicsMarks) == Num(p) && Get(rec, ChemistryMarks) == Num(c) && Get(rec, MathsMarks) == Num(m)
    ensures EditedCutoff(rec) == Num(StudentForm.Cutoff(p, c, m))
  {
  }

  /** `handleUpdate`: nothing is sent without a record being edited or
      without its id; otherwise a copy of the record is sent, with the
      cutoff recomputed when all three marks are entered. */
  method HandleUpdate(editing: Option<Record>) returns (call: Option<UpdateCall>)
    ensures call.None? <==> editing.None? || !Truthy(Get(editing.value, Id))
    ensures call.Some? ==> call.value.id == Get(editing.value, Id)
    ensures call.Some? ==> call.value.body.Keys == editing.value.Keys + (if MarksEntered(editing.value) then {Cutoff} else {})
    ensures call.Some? ==> forall k :: k in editing.value && k != Cutoff ==> call.value.body[k] == editing.value[k]
    ensures call.Some? ==>
      Get(call.value.body, Cutoff) == if MarksEntered(editing.value) then EditedCutoff(editing.value)
                                      else Get(editing.value, Cutoff)
  {
    if editing.None? || !Truthy(Get(editing.value, Id)) {
      return None;
    }
    var updated := editing.value;
    if Truthy(Get(updated, PhysicsMarks)) && Truthy(Get(updated, ChemistryMarks)) && Truthy(Get(updated, MathsMarks)) {
      updated := updated[Cutoff := EditedCutoff(updated)];
    }
    call := Some(UpdateCall(Get(editing.value, Id), updated));
  }

  /** The record `handleUpdate` sends is well-formed when the edited one
      is. */
  lemma EditedRecordWellFormed(rec: Record)
    requires WellFormed(rec)
    ensures WellFormed(rec[Cutoff := EditedCutoff(rec)])
  {
  }

  /** A mark of 0 leaves the stored cutoff as it was. */
  lemma ZeroMarkKeepsCutoff(rec: Record)
    requires Get(rec, PhysicsMarks) == Num(0.0) || Get(rec, ChemistryMarks) == Num(0.0) || Get(rec, MathsMarks) == Num(0.0)
    ensures !MarksEntered(rec)
  {
  }

  // ---------------------------------------------------------------------
  // Search

  /** `v?.toLowerCase()` runs without a TypeError: the field is absent or a
      string, as the record type declares. */
  predicate Searchable(v: Value) {
    v == Undefined || v == Null || v.Str?
  }

  predicate AllSearchable(students: seq<Record>) {
    forall i :: 0 <= i < |students| ==> Searchable(Get(students[i], Name)) && Searchable(Get(students[i], RegisterNumber))
  }

  /** `v?.toLowerCase().includes(term.toLowerCase())` is truthy. */
  predicate FieldMatches(v: Value, term: string) {
    v.Str? && Includes(Lower(v.s), Lower(term))
  }

  /** The filter's test: the name, or else the register number, contains
      the term, ignoring case. */
  predicate Matches(rec: Record, term: string) {
    FieldMatches(Get(rec, Name), term) || FieldMatches(Get(rec, RegisterNumber), term)
  }

  /** `students.filter(...)` */
  function Filter(students: seq<Record>, term: string): seq<Record>
    requires AllSearchable(students)
  {
    if students == [] then []
    else (if Matches(students[0], term) then [students[0]] else []) + Filter(students[1..], term)
  }

  /** `a` is `b` with some elements left out, the rest in their order. */
  predicate IsSubsequence(a: seq<Record>, b: seq<Record>)
    decreases |b|
  {
    if b == [] then a == []
    else (a != [] && a[0] == b[0] && IsSubsequence(a[1..], b[1..])) || IsSubsequence(a, b[1..])
  }

  /** A record is listed iff it was loaded and matches. */
  lemma {:induction false} FilterMembership(students: seq<Record>, term: string, rec: Record)
    requires AllSearchable(students)
    ensures rec in Filter(students, term) <==> rec in students && Matches(rec, term)
  {
    if students != [] {
      FilterMembership(students[1..], term, rec);
      assert students == [students[0]] + students[1..];
    }
  }

  /** The filter keeps the loaded order. */
  lemma {:induction false} FilterIsSubsequence(students: seq<Record>, term: string)
    requires AllSearchable(students)
    ensures IsSubsequence(Filter(students, term), students)
  {
    if students != [] {
      FilterIsSubsequence(students[1..], term);
      var rest := Filter(students[1..], term);
      if Matches(students[0], term) {
        assert Filter(students, term) == [students[0]] + rest;
        assert Filter(students, term)[1..] == rest;
      } else {
        assert Filter(students, term) == rest;
      }
    }
  }

  /** The filter's test on one field is substring search on the
      lower-cased texts. */
  lemma FieldMatchesIffOccurs(v: Value, term: string)
    ensures FieldMatches(v, term) <==> v.Str? && exists i :: OccursAt(Lower(v.s), Lower(term), i)
  {
    if v.Str? {
      IncludesIffOccurs(Lower(v.s), Lower(term));
      assert FieldMatches(v, term) == Includes(Lower(v.s), Lower(term));
    }
  }

  /** Case does not matter, in the term or in the record. */
  lemma MatchIgnoresCase(rec: Record, term: string, term': string)
    requires Lower(term) == Lower(term')
    ensures Matches(rec, term) <==> Matches(rec, term')
  {
  }

  /** An empty term keeps exactly the records with a name or a register
      number. */
  lemma EmptyTermKeeps(rec: Record)
    ensures Matches(rec, "") <==> Get(rec, Name).Str? || Get(rec, RegisterNumber).Str?
  {
    if Get(rec, Name).Str? {
      assert Lower("") <= Lower(Get(rec, Name).s);
    }
    if Get(rec, RegisterNumber).Str? {
      assert Lower("") <= Lower(Get(rec, RegisterNumber).s);
    }
  }

  // ---------------------------------------------------------------------
  // Displayed counters

  /** `{s.visit_count || 0}` */
  function VisitsShown(rec: Record): (v: Value)
    ensures VisitCount !in rec ==> v == Num(0.0)
    ensures Truthy(Get(rec, VisitCount)) ==> v == rec[VisitCount]
  {
    Or(Get(rec, VisitCount), Num(0.0))
  }

  /** `{s.update_count || 1}` */
  function UpdatesShown(rec: Record): (v: Value)
    ensures UpdateCount !in rec ==> v == Num(1.0)
    ensures Truthy(Get(rec, UpdateCount)) ==> v == rec[UpdateCount]
  {
    Or(Get(rec, UpdateCount), Num(1.0))
  }
}
