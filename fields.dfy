/** The properties of a student document, as the form, the list view and
    the server name them. */
module Fields {
  import opened Js

  /** One constructor per property the source names; `Extra` stands for
      any other property a client may put in a request body. */
  datatype Field =
    | Id
    | Name
    | Age
    | CourseType
    | RegisterNumber
    | ContactNo
    | Qualification
    | Board
    | Dob
    | ResultDeclared
    | PhysicsMarks
    | ChemistryMarks
    | MathsMarks
    | Cutoff
    | Percentage
    | Cgpa
    | UgDegree
    | UgStatus
    | UpdateCount
    | VisitCount
    | CreatedAt
    | UpdatedAt
    | Health
    | TokenNumber
    | TokenDate
    | Extra(property: string)

  /** The property name on the wire and in the store. */
  function PropertyName(f: Field): string {
    match f
    case Id => "id"
    case Name => "name"
    case Age => "age"
    case CourseType => "course_type"
    case RegisterNumber => "register_number"
    case ContactNo => "contact_no"
    case Qualification => "qualification"
    case Board => "board"
    case Dob => "dob"
    case ResultDeclared => "result_declared"
    case PhysicsMarks => "physics_marks"
    case ChemistryMarks => "chemistry_marks"
    case MathsMarks => "maths_marks"
    case Cutoff => "cutoff"
    case Percentage => "percentage"
    case Cgpa => "cgpa"
    case UgDegree => "ug_degree"
    case UgStatus => "ug_status"
    case UpdateCount => "update_count"
    case VisitCount => "visit_count"
    case CreatedAt => "created_at"
    case UpdatedAt => "updated_at"
    case Health => "health"
    case TokenNumber => "token_number"
    case TokenDate => "token_date"
    case Extra(p) => p
  }

  /** A student document, a request body or a response object. */
  type Record = map<Field, Value>

  /** The named properties. */
  const KnownNames: set<string> := {
    "id", "name", "age", "course_type", "register_number", "contact_no", "qualification", "board", "dob",
    "result_declared", "physics_marks", "chemistry_marks", "maths_marks", "cutoff", "percentage", "cgpa",
    "ug_degree", "ug_status", "update_count", "visit_count", "created_at", "updated_at", "health",
    "token_number", "token_date"
  }

  /** `Extra` is used only for properties the source does not name. */
  predicate Canonical(f: Field) {
    f.Extra? ==> f.property !in KnownNames
  }

  /** A record a JavaScript object can be: no property appears both under
      its own field and as `Extra`. */
  predicate WellFormed(rec: Record) {
    forall k :: k in rec ==> Canonical(k)
  }

  /** On canonical fields the property name determines the field, so a
      well-formed record is a map keyed by property name. */
  lemma PropertyNameInjective(f: Field, g: Field)
    requires Canonical(f) && Canonical(g) && PropertyName(f) == PropertyName(g)
    ensures f == g
  {
  }
}
