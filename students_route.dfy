/** The server's student routes: registration with the duplicate check, the
    age derived from the date of birth and the daily token taken in a
    transaction; viewing (which counts visits), updating (which counts
    updates), deleting, and the receipt that the print app renders. */
module StudentsRoute {
  import opened Js
  import opened Fields

  /** A calendar date as `getFullYear`, `getMonth` and `getDate` read it. */
  datatype CalendarDate = CalendarDate(year: int, month: int, day: int)

  const MissingStudent := "Student data is missing in request body"
  const MissingRegisterNumber := "Register number is required"
  const DuplicateRegisterNumber := "Student with this Register Number already exists"
  const TokenFailed := "Failed to generate token. Please try again."
  const StudentNotFound := "Student not found"

  /** The JSON replies of the routes other than print. */
  datatype Reply =
    | Created(data: Record)
    | Ok(data: Record)
    | Deleted
    | BadRequest(error: string)
    | NotFound(error: string)

  function StatusCode(r: Reply): int {
    match r
    case Created(_) => 201
    case Ok(_) => 200
    case Deleted => 200
    case BadRequest(_) => 400
    case NotFound(_) => 404
  }

  /** Which call into the document store fails during a registration, if any:
      the duplicate query, the counter transaction, or the final write. */
  datatype Fault =
    | NoFault
    | QueryFails(message: string)
    | TransactionFails
    | SaveFails(message: string)

  // ---------------------------------------------------------------------
  // Age

  /** The birthday of year `birth.year + k` falls on or before `today`,
      comparing (month, day) as the route does. */
  predicate Reached(today: CalendarDate, birth: CalendarDate, k: int) {
    birth.year + k < today.year
    || (birth.year + k == today.year
        && (birth.month < today.month || (birth.month == today.month && birth.day <= today.day)))
  }

  /** Completed years: the difference of the years, one less while this
      year's birthday is still ahead. */
  function AgeOn(today: CalendarDate, birth: CalendarDate): (age: int)
    ensures Reached(today, birth, age) && !Reached(today, birth, age + 1)
    ensures forall k :: Reached(today, birth, k) ==> k <= age
  {
    var years := today.year - birth.year;
    var months := today.month - birth.month;
    if months < 0 || (months == 0 && today.day < birth.day) then years - 1 else years
  }

  /** The `age` a registration stores: `null` without a date of birth, the
      completed years when the date parses (`birth`), NaN when it does not. */
  function AgeValue(student: Record, today: CalendarDate, birth: Option<CalendarDate>): (v: Value)
    ensures !Truthy(Get(student, Dob)) <==> v == Null
    ensures Truthy(Get(student, Dob)) && birth.Some? ==> v == Num(AgeOn(today, birth.value) as real)
    ensures Truthy(Get(student, Dob)) && birth.None? ==> v == NaN
  {
    if !Truthy(Get(student, Dob)) then Null
    else match birth
      case None => NaN
      case Some(b) => Num(AgeOn(today, b) as real)
  }

  /** The age computation of the registration route, step by step. */
  method StoredAge(student: Record, today: CalendarDate, birth: Option<CalendarDate>) returns (age: Value)
    ensures age == AgeValue(student, today, birth)
  {
    age := Null;
    if Truthy(Get(student, Dob)) {
      match birth {
        case None =>
          age := NaN;
        case Some(b) =>
          var years := today.year - b.year;
          var months := today.month - b.month;
          if months < 0 || (months == 0 && today.day < b.day) {
            years := years - 1;
          }
          age := Num(years as real);
      }
    }
  }

  // ---------------------------------------------------------------------
  // Tokens

  /** The token the counter transaction hands out: 101 when the day has no
      counter or its `last_token` is 0, else `last_token + 1`. */
  function NextToken(counters: map<string, int>, date: string): (token: int)
    ensures date !in counters || counters[date] == 0 ==> token == 101
    ensures date in counters && counters[date] != 0 ==> token == counters[date] + 1
  {
    if date in counters && counters[date] != 0 then counters[date] + 1 else 101
  }

  /** The tokens that `n` successive successful registrations on `date`
      receive, starting from `counters`. */
  function IssueTokens(counters: map<string, int>, date: string, n: nat): seq<int>
    decreases n
  {
    if n == 0 then []
    else
      var token := NextToken(counters, date);
      [token] + IssueTokens(counters[date := token], date, n - 1)
  }

  /** From a positive counter `c`, the next `n` tokens are `c + 1 .. c + n`. */
  lemma {:induction false} TokensContinue(counters: map<string, int>, date: string, n: nat)
    requires date in counters && counters[date] > 0
    ensures |IssueTokens(counters, date, n)| == n
    ensures forall i :: 0 <= i < n ==> IssueTokens(counters, date, n)[i] == counters[date] + 1 + i
    decreases n
  {
    if n > 0 {
      var next := counters[date := counters[date] + 1];
      TokensContinue(next, date, n - 1);
    }
  }

  /** A day without a counter hands out 101, 102, ... in order. */
  lemma TokensStartAt101(counters: map<string, int>, date: string, n: nat)
    requires date !in counters || counters[date] == 0
    ensures |IssueTokens(counters, date, n)| == n
    ensures forall i :: 0 <= i < n ==> IssueTokens(counters, date, n)[i] == 101 + i
  {
    if n > 0 {
      TokensContinue(counters[date := 101], date, n - 1);
    }
  }

  // ---------------------------------------------------------------------
  // Records

  /** A stored record already holds this register number; the query matches
      by equality of the stored value. */
  predicate RegisterNumberTaken(students: map<string, Record>, registerNumber: Value) {
    exists id :: id in students && Get(students[id], RegisterNumber) == registerNumber
  }

  /** Why a registration is refused before anything is written, in the order
      the route checks: no student, no register number, the duplicate query
      failing, a duplicate, the counter transaction failing. */
  function Rejection(students: map<string, Record>, student: Option<Record>, fault: Fault): Option<string> {
    if student.None? then Some(MissingStudent)
    else if !Truthy(Get(student.value, RegisterNumber)) then Some(MissingRegisterNumber)
    else if fault.QueryFails? then Some(fault.message)
    else if RegisterNumberTaken(students, Get(student.value, RegisterNumber)) then Some(DuplicateRegisterNumber)
    else if fault == TransactionFails then Some(TokenFailed)
    else None
  }

  /** A registration goes ahead iff there is a student with a register
      number that no stored record holds, and neither the duplicate query
      nor the counter transaction fails. */
  lemma RejectionCases(students: map<string, Record>, student: Option<Record>, fault: Fault)
    ensures Rejection(students, student, fault).None? <==>
      student.Some? && Truthy(Get(student.value, RegisterNumber))
      && !RegisterNumberTaken(students, Get(student.value, RegisterNumber))
      && (fault == NoFault || fault.SaveFails?)
    ensures student.Some? && Truthy(Get(student.value, RegisterNumber)) && !fault.QueryFails?
            && RegisterNumberTaken(students, Get(student.value, RegisterNumber)) ==>
      Rejection(students, student, fault) == Some(DuplicateRegisterNumber)
  {
  }

  /** The document a registration stores: the submitted fields, with the
      server's own id, creation time, health, age and token on top. */
  function Registration(student: Record, id: string, createdAt: string, health: Value, age: Value,
                        token: int, date: string): Record
  {
    student[Id := Str(id)][CreatedAt := Str(createdAt)][Health := Or(health, Null)][Age := age]
           [TokenNumber := Num(token as real)][TokenDate := Str(date)]
  }

  /** The stored document keeps every submitted field except the six the
      server sets, which it adds whether or not they were submitted; the
      client's `age` in particular is replaced. */
  lemma RegistrationFields(student: Record, id: string, createdAt: string, health: Value, age: Value,
                           token: int, date: string)
    ensures var r := Registration(student, id, createdAt, health, age, token, date);
      && r.Keys == student.Keys + {Id, CreatedAt, Health, Age, TokenNumber, TokenDate}
      && r[Id] == Str(id) && r[CreatedAt] == Str(createdAt) && r[Health] == Or(health, Null)
      && r[Age] == age && r[TokenNumber] == Num(token as real) && r[TokenDate] == Str(date)
      && forall k :: k in student && k !in {Id, CreatedAt, Health, Age, TokenNumber, TokenDate} ==>
           r[k] == student[k]
  {
  }

  /** The token and the register number of a stored registration. */
  lemma RegistrationToken(student: Record, id: string, createdAt: string, health: Value, age: Value,
                          token: int, date: string)
    ensures var r := Registration(student, id, createdAt, health, age, token, date);
      && TokenNumber in r && r[TokenNumber] == Num(token as real)
      && TokenDate in r && r[TokenDate] == Str(date)
      && Get(r, RegisterNumber) == Get(student, RegisterNumber)
  {
  }

  /** The stored document of a well-formed body is well-formed. */
  lemma RegistrationWellFormed(student: Record, id: string, createdAt: string, health: Value, age: Value,
                               token: int, date: string)
    requires WellFormed(student)
    ensures WellFormed(Registration(student, id, createdAt, health, age, token, date))
  {
  }

  /** `(visit_count || 0) + 1` */
  function NextVisitCount(current: Record): Value {
    AddOne(Or(Get(current, VisitCount), Num(0.0)))
  }

  /** `(update_count || 1) + 1` */
  function NextUpdateCount(current: Record): Value {
    AddOne(Or(Get(current, UpdateCount), Num(1.0)))
  }

  /** The fields an update writes: the body, with the server's update count
      and timestamp taking precedence over anything the body says. */
  function UpdateData(body: Record, current: Record, updatedAt: string): (u: Record)
    ensures u.Keys == body.Keys + {UpdateCount, UpdatedAt}
    ensures u[UpdateCount] == NextUpdateCount(current) && u[UpdatedAt] == Str(updatedAt)
    ensures forall k :: k in body && k != UpdateCount && k != UpdatedAt ==> u[k] == body[k]
  {
    body + map[UpdateCount := NextUpdateCount(current), UpdatedAt := Str(updatedAt)]
  }

  /** Merging a well-formed body's update into a well-formed record gives a
      well-formed record. */
  lemma UpdateWellFormed(current: Record, body: Record, updatedAt: string)
    requires WellFormed(current) && WellFormed(body)
    ensures WellFormed(current + UpdateData(body, current, updatedAt))
  {
  }

  /** A counter that counts from `start`: missing or 0 reads as `start`, a
      number `n` becomes `n + 1`. */
  lemma CountersStep(current: Record)
    ensures VisitCount !in current ==> NextVisitCount(current) == Num(1.0)
    ensures UpdateCount !in current ==> NextUpdateCount(current) == Num(2.0)
    ensures forall n: real :: Get(current, VisitCount) == Num(n) ==> NextVisitCount(current) == Num(n + 1.0)
    ensures forall n: real :: Get(current, UpdateCount) == Num(n) && n != 0.0 ==>
      NextUpdateCount(current) == Num(n + 1.0)
  {
  }

  // ---------------------------------------------------------------------
  // The print receipt

  /** What a receipt line shows: fixed text, a value interpolated into a
      template literal (`${v}`, rendered as JavaScript renders it), or a
      number with two decimals (`toFixed(2)`). */
  datatype Content =
    | Text(text: string)
    | Interpolated(prefix: string, v: Value, suffix: string)
    | Fixed2(prefix: string, x: real)

  /** One entry of the print app's list; `type` is always 0 (text). */
  datatype PrintItem = PrintItem(content: Content, bold: int, align: int, format: int)

  datatype PrintReply =
    | PrintOk(lines: map<int, PrintItem>)
    | PrintNotFound
    | PrintFailed

  const Rule := "--------------------------------"

  /** `addText` with the default bold, alignment and format. */
  function Plain(c: Content): PrintItem {
    PrintItem(c, 0, 0, 0)
  }

  /** `v?.toUpperCase()` on a field that may be absent: no TypeError. */
  predicate UpperCasable(v: Value) {
    v == Undefined || v == Null || v.Str?
  }

  /** The academic line's source value: the board, else the qualification
      for UG, the degree for PG, else the empty string. */
  function AcademicValue(s: Record): Value {
    if Get(s, CourseType) == Str("UG") then Or(Or(Get(s, Board), Get(s, Qualification)), Str(""))
    else Or(Get(s, UgDegree), Str(""))
  }

  /** The receipt is built without a TypeError: the name, if present, and the
      academic value are strings, and a UG cutoff that is shown is a number. */
  predicate Printable(s: Record) {
    UpperCasable(Get(s, Name))
    && AcademicValue(s).Str?
    && (Get(s, CourseType) == Str("UG") && Truthy(Get(s, Cutoff)) ==> Get(s, Cutoff).Num?)
  }

  /** The lines of the receipt in push order. */
  function PrintLines(s: Record, localDate: string): (lines: seq<PrintItem>)
    requires Printable(s)
  {
    var name := Get(s, Name);
    var header :=
      [PrintItem(Text("SONA COLLEGE OF TECHNOLOGY"), 1, 1, 0), PrintItem(Text("(AUTONOMOUS)"), 0, 1, 4)]
      + (if Truthy(Get(s, TokenNumber)) then [PrintItem(Interpolated("", Get(s, TokenNumber), ""), 1, 1, 1)] else [])
      + [PrintItem(Text(Rule), 0, 1, 0)];
    var person :=
      [Plain(if name.Str? then Text("NAME: " + Upper(name.s)) else Interpolated("NAME: ", Undefined, "")),
       Plain(Interpolated("AGE: ", Or(Get(s, Age), Str("-")), ""))];
    var academic :=
      [Plain(Text(Upper(AcademicValue(s).s)))]
      + (if Get(s, CourseType) == Str("UG") then
           (if Truthy(Get(s, Cutoff)) then [Plain(Fixed2("CUTOFF: ", Get(s, Cutoff).n))] else [])
         else
           (if Truthy(Get(s, Cgpa)) then [Plain(Interpolated("CGPA: ", Get(s, Cgpa), ""))] else []))
      + (if Truthy(Get(s, Percentage)) then [Plain(Interpolated("PERC: ", Get(s, Percentage), "%"))] else []);
    var footer :=
      [PrintItem(Text(Rule), 0, 1, 0),
       Plain(Interpolated("CONTACT: ", Get(s, ContactNo), "")),
       Plain(Text("DATE: " + localDate)),
       PrintItem(Text(Rule), 0, 1, 0),
       PrintItem(Interpolated("REG NO: ", Get(s, RegisterNumber), ""), 1, 1, 0),
       PrintItem(Interpolated("VISIT NO: ", Or(Get(s, VisitCount), Num(0.0)), ""), 1, 1, 0),
       Plain(Text(" ")),
       Plain(Text(" "))];
    header + person + academic + footer
  }

  /** The print route's answer for a stored record. */
  function PrintResult(s: Record, localDate: string): PrintReply {
    if Printable(s) then PrintOk(Indexed(PrintLines(s, localDate))) else PrintFailed
  }

  /** The object with keys 0 .. n-1 holding the items in order. */
  function Indexed(items: seq<PrintItem>): map<int, PrintItem> {
    map i | 0 <= i < |items| :: items[i]
  }

  /** The token line is there iff the record has a truthy token, as the
      third line, and it is the only double-height line. */
  lemma TokenLine(s: Record, localDate: string)
    requires Printable(s)
    ensures var lines := PrintLines(s, localDate);
      && (Truthy(Get(s, TokenNumber)) <==> exists i :: 0 <= i < |lines| && lines[i].format == 1)
      && (Truthy(Get(s, TokenNumber)) ==> lines[2] == PrintItem(Interpolated("", Get(s, TokenNumber), ""), 1, 1, 1))
  {
    var lines := PrintLines(s, localDate);
    if Truthy(Get(s, TokenNumber)) {
      assert lines[2].format == 1;
    }
  }

  /** For UG the academic line shows the board if there is one, else the
      qualification, upper-cased; it comes right after name and age. */
  lemma AcademicLine(s: Record, localDate: string)
    requires Printable(s) && Get(s, CourseType) == Str("UG")
    ensures var lines := PrintLines(s, localDate);
      var k := if Truthy(Get(s, TokenNumber)) then 6 else 5;
      && k < |lines|
      && (Truthy(Get(s, Board)) ==> lines[k] == Plain(Text(Upper(Get(s, Board).s))))
      && (!Truthy(Get(s, Board)) && Truthy(Get(s, Qualification)) ==>
            lines[k] == Plain(Text(Upper(Get(s, Qualification).s))))
      && (!Truthy(Get(s, Board)) && !Truthy(Get(s, Qualification)) ==> lines[k] == Plain(Text("")))
  {
  }

  /** Keys the items by position, as the route's `forEach` does. */
  method KeyByIndex(items: seq<PrintItem>) returns (obj: map<int, PrintItem>)
    ensures forall i :: i in obj <==> 0 <= i < |items|
    ensures forall i :: 0 <= i < |items| ==> obj[i] == items[i]
  {
    obj := map[];
    var index := 0;
    while index < |items|
      invariant 0 <= index <= |items|
      invariant forall i :: i in obj <==> 0 <= i < index
      invariant forall i :: 0 <= i < index ==> obj[i] == items[i]
    {
      obj := obj[index := items[index]];
      index := index + 1;
    }
  }

  // ---------------------------------------------------------------------
  // The routes

  /** The `students` collection and the `daily_counters` collection (each
      counter document reduced to its `last_token`). `issued` records, per
      date key, the tokens handed out so far. */
  class Route {
    var students: map<string, Record>
    var counters: map<string, int>
    ghost var issued: map<string, seq<int>>

    /** Every stored record is one a JavaScript object can be; every day's
        tokens run 101, 102, ... without gaps, and the day's counter holds
        the last one. */
    ghost predicate Valid()
      reads this
    {
      && (forall id :: id in students ==> WellFormed(students[id]))
      && issued.Keys == counters.Keys
      && (forall date :: date in issued ==>
            |issued[date]| >= 1 && counters[date] == 100 + |issued[date]|)
      && (forall date, i :: date in issued && 0 <= i < |issued[date]| ==> issued[date][i] == 101 + i)
    }

    /** Empty collections. */
    constructor ()
      ensures Valid() && students == map[] && counters == map[] && issued == map[]
    {
      students := map[];
      counters := map[];
      issued := map[];
    }

    /** POST: register a student. `today` is the server's local date,
        `dateKey` the UTC calendar date `YYYY-MM-DD`, `birth` what
        `new Date(student.dob)` reads (`None` for an invalid date), `newId`
        the id the store assigns and `createdAt` the timestamp. */
    method Post(student: Option<Record>, health: Value, newId: string, createdAt: string,
                today: CalendarDate, birth: Option<CalendarDate>, dateKey: string, fault: Fault)
      returns (reply: Reply)
      requires Valid()
      requires student.Some? ==> WellFormed(student.value)
      modifies this
      ensures Valid()
      ensures Rejection(old(students), student, fault).Some? ==>
        reply == BadRequest(Rejection(old(students), student, fault).value)
        && students == old(students) && counters == old(counters)
      ensures Rejection(old(students), student, fault).None? ==>
        var token := NextToken(old(counters), dateKey);
        && counters == old(counters)[dateKey := token]
        && token == 100 + |issued[dateKey]|
        && issued[dateKey] == old(if dateKey in issued then issued[dateKey] else []) + [token]
        && (fault.SaveFails? ==> reply == BadRequest(fault.message) && students == old(students))
        && (fault == NoFault ==>
              var record := Registration(student.value, newId, createdAt, health,
                                         AgeValue(student.value, today, birth), token, dateKey);
              reply == Created(record) && students == old(students)[newId := record])
    {
      if student.None? {
        return BadRequest(MissingStudent);
      }
      var s := student.value;
      if !Truthy(Get(s, RegisterNumber)) {
        return BadRequest(MissingRegisterNumber);
      }
      if fault.QueryFails? {
        return BadRequest(fault.message);
      }
      if RegisterNumberTaken(students, Get(s, RegisterNumber)) {
        return BadRequest(DuplicateRegisterNumber);
      }

      var age := StoredAge(s, today, birth);
      if fault == TransactionFails {
        return BadRequest(TokenFailed);
      }
      var token := TakeToken(dateKey);
      var record := Registration(s, newId, createdAt, health, age, token, dateKey);
      RegistrationWellFormed(s, newId, createdAt, health, age, token, dateKey);
      if fault.SaveFails? {
        return BadRequest(fault.message);
      }
      students := students[newId := record];
      reply := Created(record);
    }

    /** The counter transaction: read the day's counter, hand out the next
        token and store it as the new `last_token`. */
    method TakeToken(dateKey: string) returns (token: int)
      requires Valid()
      modifies this`counters, this`issued
      ensures Valid()
      ensures token == NextToken(old(counters), dateKey) && counters == old(counters)[dateKey := token]
      ensures token == 100 + |issued[dateKey]|
      ensures issued[dateKey] == old(if dateKey in issued then issued[dateKey] else []) + [token]
    {
      token := 101;
      if dateKey in counters && counters[dateKey] != 0 {
        token := counters[dateKey] + 1;
      }
      counters := counters[dateKey := token];
      issued := issued[dateKey := (if dateKey in issued then issued[dateKey] else []) + [token]];
    }

    /** GET by id: count the visit and answer with the record, the id and the
        new count. */
    method View(id: string) returns (reply: Reply)
      requires Valid()
      modifies this`students
      ensures Valid()
      ensures id !in old(students) ==> reply == NotFound(StudentNotFound) && students == old(students)
      ensures id in old(students) ==>
        var current := old(students)[id];
        var visits := NextVisitCount(current);
        && students == old(students)[id := current[VisitCount := visits]]
        && reply == Ok(map[Id := Str(id)] + current + map[VisitCount := visits])
    {
      if id !in students {
        return NotFound(StudentNotFound);
      }
      var current := students[id];
      var visits := AddOne(Or(Get(current, VisitCount), Num(0.0)));
      students := students[id := current[VisitCount := visits]];
      reply := Ok(map[Id := Str(id)] + current + map[VisitCount := visits]);
    }

    /** PUT: merge the body into the stored record, counting the update. */
    method Update(id: string, body: Record, updatedAt: string) returns (reply: Reply)
      requires Valid()
      requires WellFormed(body)
      modifies this`students
      ensures Valid()
      ensures id !in old(students) ==> reply == NotFound(StudentNotFound) && students == old(students)
      ensures id in old(students) ==>
        var update := UpdateData(body, old(students)[id], updatedAt);
        && students == old(students)[id := old(students)[id] + update]
        && reply == Ok(map[Id := Str(id)] + update)
    {
      if id !in students {
        return NotFound(StudentNotFound);
      }
      var current := students[id];
      UpdateWellFormed(current, body, updatedAt);
      var update := body + map[UpdateCount := AddOne(Or(Get(current, UpdateCount), Num(1.0))),
                               UpdatedAt := Str(updatedAt)];
      students := students[id := current + update];
      reply := Ok(map[Id := Str(id)] + update);
    }

    /** DELETE: remove the record; deleting a missing id also succeeds. */
    method Delete(id: string) returns (reply: Reply)
      requires Valid()
      modifies this`students
      ensures Valid()
      ensures reply == Deleted && students == old(students) - {id}
    {
      students := students - {id};
      reply := Deleted;
    }

    /** GET print: the receipt lines keyed 0, 1, ... in push order. */
    method Print(id: string, localDate: string) returns (reply: PrintReply)
      ensures id !in students ==> reply == PrintNotFound
      ensures id in students ==> reply == PrintResult(students[id], localDate)
    {
      if id !in students {
        return PrintNotFound;
      }
      var s := students[id];
      if !Printable(s) {
        return PrintFailed;
      }
      var printData := PrintLines(s, localDate);
      var obj := KeyByIndex(printData);
      return PrintOk(obj);
    }
  }
}
