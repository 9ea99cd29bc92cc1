/** How the pieces meet: a validated form reaches the registration route,
    the list view shows the counters the routes keep, an edit's cutoff is
    what gets stored, and a day's registrations receive 101, 102, ... */
module Lifecycle {
  import opened Js
  import opened Fields
  import StudentForm
  import StudentsRoute
  import StudentList

  /** The register number a valid form posts is present and truthy, so the
      route refuses the submission only for a duplicate or a store fault. */
  lemma ValidFormPassesRouteChecks(d: StudentForm.FormData, students: map<string, Record>, fault: StudentsRoute.Fault)
    requires StudentForm.Validate(d) == []
    ensures d.registerNumber.Some? && d.registerNumber.value != ""
    ensures var body := ToJson(StudentForm.Normalize(d));
      && Get(body, RegisterNumber) == Str(d.registerNumber.value)
      && StudentsRoute.Rejection(students, Some(body), fault) ==
           if fault.QueryFails? then Some(fault.message)
           else if StudentsRoute.RegisterNumberTaken(students, Str(d.registerNumber.value))
           then Some(StudentsRoute.DuplicateRegisterNumber)
           else if fault == StudentsRoute.TransactionFails then Some(StudentsRoute.TokenFailed)
           else None
  {
    StudentForm.CommonFieldsAlwaysChecked(d);
    StudentForm.NormalizeBase(d);
  }

  /** A posted body without a visit count and with `update_count` 1 is
      stored showing 0 visits and 1 update, with the server's age. */
  lemma RegisteredCounters(body: Record, id: string, createdAt: string, health: Value, age: Value,
                           token: int, date: string)
    requires VisitCount !in body && Get(body, UpdateCount) == Num(1.0)
    ensures var record := StudentsRoute.Registration(body, id, createdAt, health, age, token, date);
      && StudentList.VisitsShown(record) == Num(0.0)
      && StudentList.UpdatesShown(record) == Num(1.0)
      && record[Age] == age
  {
  }

  /** A newly registered form shows 0 visits and 1 update, and its stored
      age is the server's, whatever the form said. */
  lemma NewRecordCounters(d: StudentForm.FormData, id: string, createdAt: string, health: Value, age: Value,
                          token: int, date: string)
    ensures var record := StudentsRoute.Registration(ToJson(StudentForm.Normalize(d)), id, createdAt, health,
                                                     age, token, date);
      && StudentList.VisitsShown(record) == Num(0.0)
      && StudentList.UpdatesShown(record) == Num(1.0)
      && record[Age] == age
  {
    var r := StudentForm.Normalize(d);
    StudentForm.NormalizeBase(d);
    StudentForm.NoServerField(d, VisitCount);
    RegisteredCounters(ToJson(r), id, createdAt, health, age, token, date);
  }

  /** After a view the list shows one more visit. */
  lemma ViewAddsVisit(current: Record, n: real)
    requires StudentList.VisitsShown(current) == Num(n)
    ensures StudentList.VisitsShown(current[VisitCount := StudentsRoute.NextVisitCount(current)]) == Num(n + 1.0)
  {
  }

  /** After an update the list shows one more update, whatever the body
      said about the count (a count of -1 would wrap back to the default). */
  lemma UpdateAddsUpdate(current: Record, body: Record, updatedAt: string, n: real)
    requires StudentList.UpdatesShown(current) == Num(n) && n != -1.0
    ensures StudentList.UpdatesShown(current + StudentsRoute.UpdateData(body, current, updatedAt)) == Num(n + 1.0)
  {
  }

  /** An edit with three non-zero marks stores the form's cutoff formula. */
  lemma EditStoresCutoff(current: Record, edited: Record, updatedAt: string, p: real, c: real, m: real)
    requires Get(edited, PhysicsMarks) == Num(p) && Get(edited, ChemistryMarks) == Num(c) && Get(edited, MathsMarks) == Num(m)
    requires p != 0.0 && c != 0.0 && m != 0.0
    ensures StudentList.MarksEntered(edited)
    ensures var stored := current + StudentsRoute.UpdateData(edited[Cutoff := StudentList.EditedCutoff(edited)], current, updatedAt);
      Cutoff in stored && stored[Cutoff] == Num(StudentForm.Cutoff(p, c, m))
  {
    StudentList.EditedCutoffFormula(edited, p, c, m);
  }

  /** A registration on a valid store that no fault interrupts, reduced to
      what the next registration depends on: the stored record, its token and
      register number, and the new counter. */
  method Register(route: StudentsRoute.Route, student: Record, id: string, createdAt: string,
                  today: StudentsRoute.CalendarDate, dateKey: string)
    returns (record: Record)
    requires route.Valid() && WellFormed(student)
    requires Truthy(Get(student, RegisterNumber))
    requires !StudentsRoute.RegisterNumberTaken(route.students, Get(student, RegisterNumber))
    modifies route
    ensures route.Valid()
    ensures var token := StudentsRoute.NextToken(old(route.counters), dateKey);
      && route.counters == old(route.counters)[dateKey := token]
      && route.students == old(route.students)[id := record]
      && TokenNumber in record && record[TokenNumber] == Num(token as real)
      && TokenDate in record && record[TokenDate] == Str(dateKey)
      && Get(record, RegisterNumber) == Get(student, RegisterNumber)
  {
    ghost var token := StudentsRoute.NextToken(route.counters, dateKey);
    ghost var age := StudentsRoute.AgeValue(student, today, None);
    assert StudentsRoute.Rejection(route.students, Some(student), StudentsRoute.NoFault) == None;
    var reply := route.Post(Some(student), Undefined, id, createdAt, today, None, dateKey, StudentsRoute.NoFault);
    record := reply.data;
    StudentsRoute.RegistrationToken(student, id, createdAt, Undefined, age, token, dateKey);
  }

  /** A store holding one record holds a register number iff that record does. */
  lemma SingleStoreTaken(id: string, record: Record, registerNumber: Value)
    ensures StudentsRoute.RegisterNumberTaken(map[id := record], registerNumber)
            <==> Get(record, RegisterNumber) == registerNumber
  {
    if Get(record, RegisterNumber) == registerNumber {
      assert id in map[id := record];
    }
  }

  /** Two students with different register numbers registering on a fresh
      store on the same day are both stored, with tokens 101 and 102 and
      that day as their token date. */
  method SameDayRegistrations(a: Record, b: Record, today: StudentsRoute.CalendarDate, dateKey: string)
    returns (route: StudentsRoute.Route, first: Record, second: Record)
    requires Truthy(Get(a, RegisterNumber)) && Truthy(Get(b, RegisterNumber))
    requires Get(a, RegisterNumber) != Get(b, RegisterNumber)
    requires WellFormed(a) && WellFormed(b)
    ensures route.students == map["id-1" := first, "id-2" := second]
    ensures route.counters == map[dateKey := 102]
    ensures TokenNumber in first && first[TokenNumber] == Num(101.0)
    ensures TokenDate in first && first[TokenDate] == Str(dateKey)
    ensures TokenNumber in second && second[TokenNumber] == Num(102.0)
    ensures TokenDate in second && second[TokenDate] == Str(dateKey)
  {
    route := new StudentsRoute.Route();
    first := Register(route, a, "id-1", "t1", today, dateKey);
    SingleStoreTaken("id-1", first, Get(b, RegisterNumber));
    second := Register(route, b, "id-2", "t2", today, dateKey);
  }
}
