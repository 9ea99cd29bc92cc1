/** The admission form on the client: the Zod schema and its `superRefine`
    decision tree (`Validate`), the effect that derives the cutoff from the
    three marks (`CutoffEffect`), and the clean-up that `onSubmit` applies
    before posting (`Normalize`). */
module StudentForm {
  import opened Js
  import F = Fields

  datatype CourseType = UG | PG
  datatype Qualification = HSC | Diploma
  datatype Board = Matric | CBSE | Other
  datatype UgStatus = Completed | Pursuing

  /** The form values as the schema receives them. Text inputs (the number
      inputs included) deliver strings; an optional field that was never
      filled is `None`. For the enum fields the schema accepts null,
      undefined and '' alike, and all three are `None` here. The register
      number input exists only inside the qualification, board and PG
      sections, so until one of them has been shown the register number is
      undefined (`None`); the other required inputs are always shown and
      hold at least the empty string. */
  datatype FormData = FormData(
    name: string,
    courseType: CourseType,
    registerNumber: Option<string>,
    contactNo: string,
    age: string,
    qualification: Option<Qualification>,
    board: Option<Board>,
    dob: Option<string>,
    resultDeclared: Option<bool>,
    physicsMarks: Option<string>,
    chemistryMarks: Option<string>,
    mathsMarks: Option<string>,
    cutoff: Option<real>,
    percentage: Option<string>,
    cgpa: Option<string>,
    ugDegree: Option<string>,
    ugStatus: Option<UgStatus>
  )

  /** A validation issue the schema can report; `Path` and `Message` give
      the field path and the text the source attaches to it. */
  datatype Issue =
    | NameRequired
    | RegisterNumberMissing
    | RegisterNumberRequired
    | ContactInvalid
    | AgeRequired
    | QualificationRequired
    | BoardRequired
    | PhysicsRequired
    | ChemistryRequired
    | MathsRequired
    | PercentageRequired
    | UgDegreeRequired
    | UgStatusRequired
    | PercentageOrCgpaRequired

  function Path(i: Issue): F.Field {
    match i
    case NameRequired => F.Name
    case RegisterNumberMissing => F.RegisterNumber
    case RegisterNumberRequired => F.RegisterNumber
    case ContactInvalid => F.ContactNo
    case AgeRequired => F.Age
    case QualificationRequired => F.Qualification
    case BoardRequired => F.Board
    case PhysicsRequired => F.PhysicsMarks
    case ChemistryRequired => F.ChemistryMarks
    case MathsRequired => F.MathsMarks
    case PercentageRequired => F.Percentage
    case UgDegreeRequired => F.UgDegree
    case UgStatusRequired => F.UgStatus
    case PercentageOrCgpaRequired => F.Percentage
  }

  function Message(i: Issue): string {
    match i
    case NameRequired => "Name is required"
    case RegisterNumberMissing => "Required"
    case RegisterNumberRequired => "Register Number is required"
    case ContactInvalid => "Invalid contact number"
    case AgeRequired => "Age is required"
    case QualificationRequired => "Qualification is required"
    case BoardRequired => "Board is required"
    case PhysicsRequired => "Physics marks required"
    case ChemistryRequired => "Chemistry marks required"
    case MathsRequired => "Maths marks required"
    case PercentageRequired => "Percentage is required"
    case UgDegreeRequired => "UG Degree is required"
    case UgStatusRequired => "UG Status is required"
    case PercentageOrCgpaRequired => "Percentage or CGPA is required"
  }

  /** `!x` for an optional text field: undefined or the empty string. */
  predicate Blank(o: Option<string>) {
    o == None || o == Some("")
  }

  /** `if (data.result_declared)` */
  predicate Declared(o: Option<bool>) {
    o == Some(true)
  }

  // ---------------------------------------------------------------------
  // Contact number: /^\+?[\d\s-]{10,}$/

  predicate IsContactChar(c: char) {
    IsDigit(c) || IsSpace(c) || c == '-'
  }

  /** `[\d\s-]{n,}$` after `seen` characters of the class were consumed. */
  predicate ClassRun(s: string, seen: nat)
    decreases |s|
  {
    if s == [] then seen >= 10 else IsContactChar(s[0]) && ClassRun(s[1..], seen + 1)
  }

  /** The regular expression, tried as the engine does: the optional '+'
      is taken first, then skipped. */
  predicate ContactMatches(s: string) {
    (s != [] && s[0] == '+' && ClassRun(s[1..], 0)) || ClassRun(s, 0)
  }

  lemma {:induction false} ClassRunIff(s: string, seen: nat)
    ensures ClassRun(s, seen) <==> |s| + seen >= 10 && forall i :: 0 <= i < |s| ==> IsContactChar(s[i])
    decreases |s|
  {
    if s != [] {
      ClassRunIff(s[1..], seen + 1);
      assert forall i :: 1 <= i < |s| ==> s[i] == s[1..][i - 1];
    }
  }

  /** A contact number is accepted iff, after an optional leading '+', at
      least ten characters follow and each is a digit, white space or '-'. */
  lemma ContactAccepted(s: string)
    ensures ContactMatches(s) <==>
      var body := if s != [] && s[0] == '+' then s[1..] else s;
      |body| >= 10 && forall i :: 0 <= i < |body| ==> IsContactChar(body[i])
  {
    ClassRunIff(s, 0);
    if s != [] {
      ClassRunIff(s[1..], 0);
    }
  }

  // ---------------------------------------------------------------------
  // The schema and its refinement

  /** The per-field checks of the object schema, in field order. Lengths are
      counted as `.min` counts them, in UTF-16 code units. */
  function SchemaIssues(d: FormData): seq<Issue> {
    (if Utf16Length(d.name) < 2 then [NameRequired] else [])
    + (match d.registerNumber
       case None => [RegisterNumberMissing]
       case Some(r) => if Utf16Length(r) < 1 then [RegisterNumberRequired] else [])
    + (if !ContactMatches(d.contactNo) then [ContactInvalid] else [])
    + (if Utf16Length(d.age) < 1 then [AgeRequired] else [])
  }

  /** The three marks checks, which all run and accumulate. */
  function MarkIssues(d: FormData): seq<Issue> {
    (if Blank(d.physicsMarks) then [PhysicsRequired] else [])
    + (if Blank(d.chemistryMarks) then [ChemistryRequired] else [])
    + (if Blank(d.mathsMarks) then [MathsRequired] else [])
  }

  /** The `superRefine` callback: course type, then qualification, then
      board or result status decide which checks run. */
  function RefineIssues(d: FormData): seq<Issue> {
    match d.courseType
    case UG =>
      if d.qualification == None then [QualificationRequired]
      else if d.qualification == Some(HSC) then
        if d.board == None then [BoardRequired]
        else if d.board == Some(Matric) || d.board == Some(CBSE) then
          if Declared(d.resultDeclared) then MarkIssues(d) else []
        else if Blank(d.percentage) then [PercentageRequired]
        else []
      else if Declared(d.resultDeclared) && Blank(d.percentage) then [PercentageRequired]
      else []
    case PG =>
      (if Blank(d.ugDegree) then [UgDegreeRequired] else [])
      + (if d.ugStatus == None then [UgStatusRequired] else [])
      + (if d.ugStatus == Some(Completed) && Blank(d.percentage) && Blank(d.cgpa)
         then [PercentageOrCgpaRequired] else [])
  }

  /** A field of the wrong type (the register number still undefined where
      a string is required) aborts the object schema, and then the
      refinement does not run. A failed length or pattern check does not
      abort it. */
  predicate Aborted(d: FormData) {
    d.registerNumber.None?
  }

  /** Every issue the resolver reports: the field checks first, then the
      refinement's issues unless the object was aborted. */
  function Validate(d: FormData): seq<Issue> {
    SchemaIssues(d) + (if Aborted(d) then [] else RefineIssues(d))
  }

  predicate IsSchemaIssue(i: Issue) {
    i == NameRequired || i == RegisterNumberMissing || i == RegisterNumberRequired
    || i == ContactInvalid || i == AgeRequired
  }

  /** The refinement never reports one of the per-field schema issues. */
  lemma RefineNeverRepeatsSchema(d: FormData)
    ensures forall i :: i in RefineIssues(d) ==> !IsSchemaIssue(i)
  {
  }

  /** An issue other than the per-field ones is reported iff the register
      number is defined and the refinement reports it. */
  lemma RefinementIssue(d: FormData, i: Issue)
    requires !IsSchemaIssue(i)
    ensures i in Validate(d) <==> !Aborted(d) && i in RefineIssues(d)
  {
    assert forall j :: j in SchemaIssues(d) ==> IsSchemaIssue(j);
  }

  /** An undefined register number is reported as "Required", and then only
      field issues are reported: no qualification, board, marks or PG
      issue, whatever the rest of the form holds. */
  lemma UndefinedRegisterNumber(d: FormData)
    requires d.registerNumber == None
    ensures RegisterNumberMissing in Validate(d) && Message(RegisterNumberMissing) == "Required"
    ensures forall i :: i in Validate(d) ==> IsSchemaIssue(i)
  {
    assert Validate(d) == SchemaIssues(d);
  }

  /** The name and contact checks, each on its own. */
  lemma NameAndContactChecks(d: FormData)
    ensures NameRequired in SchemaIssues(d) <==> Utf16Length(d.name) < 2
    ensures ContactInvalid in SchemaIssues(d) <==> !ContactMatches(d.contactNo)
  {
  }

  /** The register number and age checks, each on its own. */
  lemma RegisterNumberAndAgeChecks(d: FormData)
    ensures RegisterNumberMissing in SchemaIssues(d) <==> d.registerNumber == None
    ensures RegisterNumberRequired in SchemaIssues(d) <==> d.registerNumber == Some("")
    ensures AgeRequired in SchemaIssues(d) <==> d.age == ""
  {
  }

  /** A per-field issue is reported iff its check fails, refinement or not. */
  lemma SchemaIssueReported(d: FormData, i: Issue)
    requires IsSchemaIssue(i)
    ensures i in Validate(d) <==> i in SchemaIssues(d)
  {
    RefineNeverRepeatsSchema(d);
  }

  /** Name, register number, contact number and age are checked whatever the
      course type, and each is reported iff its own rule fails. */
  lemma CommonFieldsAlwaysChecked(d: FormData)
    ensures NameRequired in Validate(d) <==> Utf16Length(d.name) < 2
    ensures RegisterNumberMissing in Validate(d) <==> d.registerNumber == None
    ensures RegisterNumberRequired in Validate(d) <==> d.registerNumber == Some("")
    ensures ContactInvalid in Validate(d) <==> !ContactMatches(d.contactNo)
    ensures AgeRequired in Validate(d) <==> d.age == ""
  {
    NameAndContactChecks(d);
    RegisterNumberAndAgeChecks(d);
    SchemaIssueReported(d, NameRequired);
    SchemaIssueReported(d, RegisterNumberMissing);
    SchemaIssueReported(d, RegisterNumberRequired);
    SchemaIssueReported(d, ContactInvalid);
    SchemaIssueReported(d, AgeRequired);
  }

  /** The name rule in characters: only an empty name or one character of
      the Basic Multilingual Plane is too short, so a single emoji passes. */
  lemma NameLengthInCharacters(d: FormData)
    ensures NameRequired in Validate(d) <==>
      d.name == [] || (|d.name| == 1 && d.name[0] <= '\U{FFFF}')
  {
    CommonFieldsAlwaysChecked(d);
    if |d.name| == 1 {
      assert d.name[1..] == [];
    }
  }

  /** The per-field checks do not look at the date of birth. */
  lemma DobNotInSchema(d: FormData, dob: Option<string>)
    ensures SchemaIssues(d.(dob := dob)) == SchemaIssues(d)
  {
  }

  /** Nor does the refinement. */
  lemma DobNotInRefinement(d: FormData, dob: Option<string>)
    ensures RefineIssues(d.(dob := dob)) == RefineIssues(d)
  {
    assert MarkIssues(d.(dob := dob)) == MarkIssues(d);
  }

  /** The date of birth is never checked: changing it changes no issue. */
  lemma DobNeverChecked(d: FormData, dob: Option<string>)
    ensures Validate(d.(dob := dob)) == Validate(d)
    ensures forall i :: i in Validate(d) ==> Path(i) != F.Dob
  {
    DobNotInSchema(d, dob);
    DobNotInRefinement(d, dob);
    forall i: Issue
      ensures Path(i) != F.Dob
    {
    }
  }

  /** A UG applicant without a qualification gets exactly one refinement
      issue, on `qualification`; nothing deeper is checked. On a fresh form,
      where the register number is still undefined, not even that one. */
  lemma UgWithoutQualification(d: FormData)
    requires d.courseType == UG && d.qualification == None
    ensures RefineIssues(d) == [QualificationRequired]
    ensures Validate(d) == SchemaIssues(d) + (if Aborted(d) then [] else [QualificationRequired])
  {
  }

  /** A UG/HSC applicant without a board gets exactly one refinement issue,
      on `board`; nothing deeper is checked. Before a board is chosen no
      register number input has been shown, so on a fresh form the issue is
      not reported. */
  lemma HscWithoutBoard(d: FormData)
    requires d.courseType == UG && d.qualification == Some(HSC) && d.board == None
    ensures RefineIssues(d) == [BoardRequired]
    ensures Validate(d) == SchemaIssues(d) + (if Aborted(d) then [] else [BoardRequired])
  {
  }

  /** Matric and CBSE: when the result is declared there is one issue per
      missing mark (0 to 3, all reported), otherwise none. */
  lemma MarksAccumulate(d: FormData)
    requires d.courseType == UG && d.qualification == Some(HSC)
    requires d.board == Some(Matric) || d.board == Some(CBSE)
    ensures |RefineIssues(d)| ==
      if Declared(d.resultDeclared) then
        (if Blank(d.physicsMarks) then 1 else 0) + (if Blank(d.chemistryMarks) then 1 else 0)
        + (if Blank(d.mathsMarks) then 1 else 0)
      else 0
    ensures PhysicsRequired in RefineIssues(d) <==> Declared(d.resultDeclared) && Blank(d.physicsMarks)
    ensures ChemistryRequired in RefineIssues(d) <==> Declared(d.resultDeclared) && Blank(d.chemistryMarks)
    ensures MathsRequired in RefineIssues(d) <==> Declared(d.resultDeclared) && Blank(d.mathsMarks)
  {
  }

  /** For UG the percentage is required for HSC with the Other board always,
      for a Diploma only when the result is declared, and never otherwise. */
  lemma PercentageRequirement(d: FormData)
    requires d.courseType == UG
    ensures PercentageRequired in RefineIssues(d) <==>
      Blank(d.percentage)
      && ((d.qualification == Some(HSC) && d.board == Some(Other))
          || (d.qualification == Some(Diploma) && Declared(d.resultDeclared)))
  {
    match d.qualification
    case None =>
    case Some(Diploma) =>
    case Some(HSC) =>
      match d.board
      case None =>
      case Some(Other) =>
      case Some(_) =>
        assert PercentageRequired !in MarkIssues(d);
  }

  /** The PG checks of the refinement, each on its own. */
  lemma PgRefinement(d: FormData)
    requires d.courseType == PG
    ensures UgDegreeRequired in RefineIssues(d) <==> Blank(d.ugDegree)
    ensures UgStatusRequired in RefineIssues(d) <==> d.ugStatus == None
    ensures PercentageOrCgpaRequired in RefineIssues(d) <==>
      d.ugStatus == Some(Completed) && Blank(d.percentage) && Blank(d.cgpa)
    ensures d.ugStatus == Some(Pursuing) ==> RefineIssues(d) == (if Blank(d.ugDegree) then [UgDegreeRequired] else [])
  {
  }

  /** PG: degree and status are reported independently; when the UG course
      is completed, percentage or CGPA must be given; pursuing needs neither.
      None of these is reported while the register number is undefined. */
  lemma PgRequirements(d: FormData)
    requires d.courseType == PG
    ensures UgDegreeRequired in Validate(d) <==> !Aborted(d) && Blank(d.ugDegree)
    ensures UgStatusRequired in Validate(d) <==> !Aborted(d) && d.ugStatus == None
    ensures PercentageOrCgpaRequired in Validate(d) <==>
      !Aborted(d) && d.ugStatus == Some(Completed) && Blank(d.percentage) && Blank(d.cgpa)
    ensures d.ugStatus == Some(Pursuing) ==> RefineIssues(d) == (if Blank(d.ugDegree) then [UgDegreeRequired] else [])
  {
    PgRefinement(d);
    RefinementIssue(d, UgDegreeRequired);
    RefinementIssue(d, UgStatusRequired);
    RefinementIssue(d, PercentageOrCgpaRequired);
  }

  // ---------------------------------------------------------------------
  // The cutoff

  /** The admission cutoff: maths plus the mean of physics and chemistry. */
  function Cutoff(physics: real, chemistry: real, maths: real): real {
    maths + (physics + chemistry) / 2.0
  }

  /** A higher mark never lowers the cutoff, maths counts twice as much as
      physics or chemistry, and physics and chemistry are interchangeable. */
  lemma CutoffMonotone(p: real, c: real, m: real, p': real, c': real, m': real)
    requires p <= p' && c <= c' && m <= m'
    ensures Cutoff(p, c, m) <= Cutoff(p', c', m')
    ensures Cutoff(p, c, m + 1.0) == Cutoff(p + 2.0, c, m) == Cutoff(p, c + 2.0, m)
    ensures Cutoff(p, c, m) == Cutoff(c, p, m)
  {
  }

  /** The cutoff shown on the form and the form's own `cutoff` value. */
  datatype CutoffState = CutoffState(shown: Option<real>, value: Option<real>)

  /** A mark field that is filled in and that `Number` reads as a number. */
  predicate Numeric(o: Option<string>) {
    !Blank(o) && NumberOf(o).Num?
  }

  /** The effect that runs whenever one of the three marks changes. */
  function CutoffEffect(physics: Option<string>, chemistry: Option<string>, maths: Option<string>,
                        st: CutoffState): CutoffState
  {
    if !Blank(physics) && !Blank(chemistry) && !Blank(maths) then
      var p, c, m := NumberOf(physics), NumberOf(chemistry), NumberOf(maths);
      if p.Num? && c.Num? && m.Num? then
        var cutoff := Cutoff(p.n, c.n, m.n);
        CutoffState(Some(cutoff), Some(cutoff))
      else
        st
    else
      CutoffState(None, st.value)
  }

  /** The form's cutoff is set, to the formula, only when all three marks are
      filled in and numeric. When a mark is missing the displayed cutoff is
      cleared and the form's value kept; when all are filled in but one is
      not a number, nothing changes. */
  lemma CutoffEffectSpec(physics: Option<string>, chemistry: Option<string>, maths: Option<string>,
                         st: CutoffState)
    ensures var r := CutoffEffect(physics, chemistry, maths, st);
      && (Numeric(physics) && Numeric(chemistry) && Numeric(maths) ==>
            r.value == r.shown
            == Some(Cutoff(NumberOf(physics).n, NumberOf(chemistry).n, NumberOf(maths).n)))
      && (r.value != st.value ==> Numeric(physics) && Numeric(chemistry) && Numeric(maths))
      && (Blank(physics) || Blank(chemistry) || Blank(maths) ==> r == CutoffState(None, st.value))
      && ((!Blank(physics) && !Blank(chemistry) && !Blank(maths)
           && !(Numeric(physics) && Numeric(chemistry) && Numeric(maths))) ==> r == st)
  {
  }

  // ---------------------------------------------------------------------
  // Normalisation on submit

  function CourseName(c: CourseType): string {
    match c
    case UG => "UG"
    case PG => "PG"
  }

  function QualificationValue(o: Option<Qualification>): Value {
    match o
    case None => Undefined
    case Some(HSC) => Str("HSC")
    case Some(Diploma) => Str("Diploma")
  }

  function BoardValue(o: Option<Board>): Value {
    match o
    case None => Undefined
    case Some(Matric) => Str("Matric")
    case Some(CBSE) => Str("CBSE")
    case Some(Other) => Str("Other")
  }

  function StatusValue(o: Option<UgStatus>): Value {
    match o
    case None => Undefined
    case Some(Completed) => Str("Completed")
    case Some(Pursuing) => Str("Pursuing")
  }

  function TextValue(o: Option<string>): Value {
    match o
    case None => Undefined
    case Some(s) => Str(s)
  }

  function BoolValue(o: Option<bool>): Value {
    match o
    case None => Undefined
    case Some(b) => Bool(b)
  }

  function RealValue(o: Option<real>): Value {
    match o
    case None => Undefined
    case Some(x) => Num(x)
  }

  const BaseKeys: set<F.Field> := {F.Name, F.Age, F.CourseType, F.RegisterNumber, F.ContactNo, F.UpdateCount}
  const MarkKeys: set<F.Field> := {F.PhysicsMarks, F.ChemistryMarks, F.MathsMarks, F.Cutoff}

  /** Fields only a UG submission carries. */
  predicate IsUgField(k: F.Field) {
    k.Qualification? || k.Board? || k.Dob? || k.ResultDeclared?
    || k.PhysicsMarks? || k.ChemistryMarks? || k.MathsMarks? || k.Cutoff?
  }

  /** Fields only a PG submission carries. */
  predicate IsPgField(k: F.Field) {
    k.UgDegree? || k.UgStatus? || k.Cgpa?
  }

  /** The fields every submission carries. */
  function BaseData(d: FormData): F.Record {
    map[
      F.Name := Str(d.name),
      F.Age := NumberOf(Some(d.age)),
      F.CourseType := Str(CourseName(d.courseType)),
      F.RegisterNumber := TextValue(d.registerNumber),
      F.ContactNo := Str(d.contactNo),
      F.UpdateCount := Num(1.0)
    ]
  }

  /** The fields a UG submission adds, each assigned in the source's order
      as the qualification, board and result status select them. */
  function UgData(d: FormData): F.Record {
    var withQualification := map[F.Qualification := QualificationValue(d.qualification)];
    if d.qualification == Some(HSC) then
      var withBoard := withQualification[F.Board := BoardValue(d.board)];
      if d.board == Some(Matric) || d.board == Some(CBSE) then
        var withResult := withBoard[F.Dob := TextValue(d.dob)][F.ResultDeclared := BoolValue(d.resultDeclared)];
        if Declared(d.resultDeclared) then
          withResult[F.PhysicsMarks := NumberOf(d.physicsMarks)]
                    [F.ChemistryMarks := NumberOf(d.chemistryMarks)]
                    [F.MathsMarks := NumberOf(d.mathsMarks)]
                    [F.Cutoff := RealValue(d.cutoff)]
        else
          withResult
      else
        withBoard[F.Percentage := NumberOf(d.percentage)]
    else
      var withResult := withQualification[F.ResultDeclared := BoolValue(d.resultDeclared)];
      if Declared(d.resultDeclared) then withResult[F.Percentage := NumberOf(d.percentage)] else withResult
  }

  /** The fields a PG submission adds: degree and status, and a filled-in
      percentage or CGPA only when the UG course is completed. */
  function PgData(d: FormData): F.Record {
    var withStatus := map[F.UgDegree := TextValue(d.ugDegree), F.UgStatus := StatusValue(d.ugStatus)];
    var completed := d.ugStatus == Some(Completed);
    var withPercentage :=
      if completed && !Blank(d.percentage) then withStatus[F.Percentage := NumberOf(d.percentage)] else withStatus;
    if completed && !Blank(d.cgpa) then withPercentage[F.Cgpa := NumberOf(d.cgpa)] else withPercentage
  }

  /** The fields of the branch the course type selects. */
  function BranchData(d: FormData): F.Record {
    match d.courseType
    case UG => UgData(d)
    case PG => PgData(d)
  }

  /** The record `onSubmit` posts: the base fields, then the branch fields
      (no branch field is a base field, as `BranchOwnsNoBaseField` shows). */
  function Normalize(d: FormData): F.Record {
    BaseData(d) + BranchData(d)
  }

  /** A branch only adds course-specific fields and the percentage, never a
      base field. */
  lemma BranchOwnsNoBaseField(d: FormData)
    ensures forall k :: k in BranchData(d) ==> IsUgField(k) || IsPgField(k) || k.Percentage?
  {
    if d.courseType == UG && d.qualification == Some(HSC) {
      if d.board == Some(Matric) || d.board == Some(CBSE) {
      } else {
      }
    }
  }

  /** Fields only the server writes. */
  predicate IsServerField(k: F.Field) {
    k.Id? || k.VisitCount? || k.CreatedAt? || k.UpdatedAt? || k.Health? || k.TokenNumber? || k.TokenDate?
  }

  /** A submission never carries a field the server writes. */
  lemma NoServerField(d: FormData, k: F.Field)
    requires IsServerField(k)
    ensures k !in Normalize(d)
  {
    assert !IsUgField(k) && !IsPgField(k) && !k.Percentage?;
    BranchOwnsNoBaseField(d);
    assert k !in BranchData(d);
    assert k !in BaseData(d);
  }

  /** A submission names only the form's own properties, so it is a
      well-formed record. */
  lemma SubmissionWellFormed(d: FormData)
    ensures forall k :: k in Normalize(d) ==> !k.Extra?
    ensures F.WellFormed(ToJson(Normalize(d)))
  {
    BranchOwnsNoBaseField(d);
    assert forall k :: k in BaseData(d) ==> !k.Extra?;
    assert forall k :: k in Normalize(d) ==> k in BaseData(d) || k in BranchData(d);
  }

  /** A branch field reaches the submission unchanged. */
  lemma BranchValue(d: FormData, k: F.Field)
    requires k in BranchData(d)
    ensures k in Normalize(d) && Normalize(d)[k] == BranchData(d)[k]
  {
  }

  /** A base field reaches the submission unchanged: no branch overrides it. */
  lemma BaseValue(d: FormData, k: F.Field)
    requires k in BaseData(d)
    ensures k in Normalize(d) && Normalize(d)[k] == BaseData(d)[k]
  {
    assert k.Name? || k.Age? || k.CourseType? || k.RegisterNumber? || k.ContactNo? || k.UpdateCount?;
    BranchOwnsNoBaseField(d);
    assert k !in BranchData(d);
  }

  /** Every submission carries the base fields, with `update_count` 1. */
  lemma NormalizeBase(d: FormData)
    ensures var r := Normalize(d);
      && BaseKeys <= r.Keys
      && r[F.UpdateCount] == Num(1.0)
      && r[F.Name] == Str(d.name) && r[F.RegisterNumber] == TextValue(d.registerNumber)
      && r[F.ContactNo] == Str(d.contactNo) && r[F.CourseType] == Str(CourseName(d.courseType))
      && r[F.Age] == NumberOf(Some(d.age))
  {
    BaseValue(d, F.Name);
    BaseValue(d, F.Age);
    BaseValue(d, F.CourseType);
    BaseValue(d, F.RegisterNumber);
    BaseValue(d, F.ContactNo);
    BaseValue(d, F.UpdateCount);
  }

  /** UG/HSC with the Matric or CBSE board: the board details, and the marks
      with the cutoff only when the result is declared. */
  lemma SchoolBoardKeys(d: FormData)
    requires d.courseType == UG && d.qualification == Some(HSC)
    requires d.board == Some(Matric) || d.board == Some(CBSE)
    ensures Normalize(d).Keys == BaseKeys + {F.Qualification, F.Board, F.Dob, F.ResultDeclared}
                                 + (if Declared(d.resultDeclared) then MarkKeys else {})
  {
    assert BaseData(d).Keys == BaseKeys;
  }

  /** UG/HSC with any other board: the percentage and nothing else. */
  lemma OtherBoardKeys(d: FormData)
    requires d.courseType == UG && d.qualification == Some(HSC)
    requires d.board != Some(Matric) && d.board != Some(CBSE)
    ensures Normalize(d).Keys == BaseKeys + {F.Qualification, F.Board, F.Percentage}
  {
    assert BaseData(d).Keys == BaseKeys;
  }

  /** UG without HSC (a Diploma): the result flag, and the percentage only
      when the result is declared. */
  lemma DiplomaKeys(d: FormData)
    requires d.courseType == UG && d.qualification != Some(HSC)
    ensures Normalize(d).Keys == BaseKeys + {F.Qualification, F.ResultDeclared}
                                 + (if Declared(d.resultDeclared) then {F.Percentage} else {})
  {
    assert BaseData(d).Keys == BaseKeys;
  }

  /** PG: degree and status, and a filled-in percentage or CGPA only when the
      UG course is completed. */
  lemma PgKeys(d: FormData)
    requires d.courseType == PG
    ensures Normalize(d).Keys == BaseKeys + {F.UgDegree, F.UgStatus}
                                 + (if d.ugStatus == Some(Completed) && !Blank(d.percentage) then {F.Percentage} else {})
                                 + (if d.ugStatus == Some(Completed) && !Blank(d.cgpa) then {F.Cgpa} else {})
  {
    assert BaseData(d).Keys == BaseKeys;
    assert PgData(d).Keys == {F.UgDegree, F.UgStatus}
                             + (if d.ugStatus == Some(Completed) && !Blank(d.percentage) then {F.Percentage} else {})
                             + (if d.ugStatus == Some(Completed) && !Blank(d.cgpa) then {F.Cgpa} else {});
  }

  /** A valid form has no refinement issue. */
  lemma ValidRefines(d: FormData)
    requires Validate(d) == []
    ensures RefineIssues(d) == []
  {
    assert |Validate(d)| == |SchemaIssues(d)| + |RefineIssues(d)|;
  }

  /** The UG branch's qualification, and for HSC its board, as submitted. */
  lemma UgChoicesSubmitted(d: FormData)
    requires d.courseType == UG
    ensures F.Qualification in Normalize(d) && Normalize(d)[F.Qualification] == QualificationValue(d.qualification)
    ensures d.qualification == Some(HSC) ==>
      F.Board in Normalize(d) && Normalize(d)[F.Board] == BoardValue(d.board)
  {
    assert UgData(d)[F.Qualification] == QualificationValue(d.qualification);
    BranchValue(d, F.Qualification);
    if d.qualification == Some(HSC) {
      assert UgData(d)[F.Board] == BoardValue(d.board);
      BranchValue(d, F.Board);
    }
  }

  /** On a valid UG form the qualification, and for HSC the board, reach the
      server; an Other-board percentage is read from a non-empty entry. */
  lemma ValidUgSubmission(d: FormData)
    requires Validate(d) == [] && d.courseType == UG
    ensures var wire := ToJson(Normalize(d));
      && F.Qualification in wire && wire[F.Qualification] == QualificationValue(d.qualification) != Undefined
      && (d.qualification == Some(HSC) ==> F.Board in wire && wire[F.Board] == BoardValue(d.board) != Undefined)
      && (d.qualification == Some(HSC) && d.board == Some(Other) ==>
            !Blank(d.percentage) && Normalize(d)[F.Percentage] == ToNumber(Str(d.percentage.value)))
  {
    ValidRefines(d);
    assert d.qualification.Some?;
    UgChoicesSubmitted(d);
    var r := Normalize(d);
    if d.qualification == Some(HSC) {
      assert d.board.Some?;
      if d.board == Some(Other) {
        assert !Blank(d.percentage);
        assert UgData(d)[F.Percentage] == NumberOf(d.percentage);
        BranchValue(d, F.Percentage);
      }
    }
  }

  /** On a valid PG form a non-empty degree and the status reach the server. */
  lemma ValidPgSubmission(d: FormData)
    requires Validate(d) == [] && d.courseType == PG
    ensures var wire := ToJson(Normalize(d));
      && F.UgDegree in wire && wire[F.UgDegree] == TextValue(d.ugDegree) && Truthy(wire[F.UgDegree])
      && F.UgStatus in wire && wire[F.UgStatus] == StatusValue(d.ugStatus) != Undefined
  {
    assert RefineIssues(d) == [];
    var r := Normalize(d);
    assert r[F.UgDegree] == TextValue(d.ugDegree);
    assert r[F.UgStatus] == StatusValue(d.ugStatus);
  }

  /** UG/HSC with Matric or CBSE and a declared result, whose three marks were
      entered as numbers P, C, M and whose cutoff is the one the effect set:
      the submission carries the marks and the cutoff M + (P + C) / 2. */
  lemma SubmittedCutoff(d: FormData, st: CutoffState)
    requires d.courseType == UG && d.qualification == Some(HSC)
    requires d.board == Some(Matric) || d.board == Some(CBSE)
    requires Declared(d.resultDeclared)
    requires Numeric(d.physicsMarks) && Numeric(d.chemistryMarks) && Numeric(d.mathsMarks)
    requires d.cutoff == CutoffEffect(d.physicsMarks, d.chemistryMarks, d.mathsMarks, st).value
    ensures var r := Normalize(d);
      var p, c, m := NumberOf(d.physicsMarks).n, NumberOf(d.chemistryMarks).n, NumberOf(d.mathsMarks).n;
      && F.PhysicsMarks in r && r[F.PhysicsMarks] == Num(p)
      && F.ChemistryMarks in r && r[F.ChemistryMarks] == Num(c)
      && F.MathsMarks in r && r[F.MathsMarks] == Num(m)
      && F.Cutoff in r && r[F.Cutoff] == Num(m + (p + c) / 2.0)
  {
    CutoffEffectSpec(d.physicsMarks, d.chemistryMarks, d.mathsMarks, st);
    var u := UgData(d);
    assert u[F.PhysicsMarks] == NumberOf(d.physicsMarks);
    assert u[F.ChemistryMarks] == NumberOf(d.chemistryMarks);
    assert u[F.MathsMarks] == NumberOf(d.mathsMarks);
    assert u[F.Cutoff] == RealValue(d.cutoff);
    BranchValue(d, F.PhysicsMarks);
    BranchValue(d, F.ChemistryMarks);
    BranchValue(d, F.MathsMarks);
    BranchValue(d, F.Cutoff);
  }
}
