/**
 * The booking rule of `POST /appointment`: the chain of guards, the
 * appointment record it builds, and the two appends that record it in the
 * teacher's and the student's documents.
 */
module Booking {
  import opened Records

  /** The request body of `POST /appointment`; every member may be absent. */
  datatype BookingRequest = BookingRequest(
    date: Option<string>,
    teacherName: Option<string>,
    teacherId: Option<string>,
    studentName: Option<string>,
    studentId: Option<string>,
    course: Option<string>,
    location: Option<string>,
    appointmentLink: Option<string>)

  /** The members of a booking request, and so of an appointment. */
  datatype BookingField =
    Date | TeacherName | TeacherId | StudentName | StudentId | Course | Location | AppointmentLink

  function RequestField(req: BookingRequest, f: BookingField): Option<string>
  {
    match f
    case Date => req.date
    case TeacherName => req.teacherName
    case TeacherId => req.teacherId
    case StudentName => req.studentName
    case StudentId => req.studentId
    case Course => req.course
    case Location => req.location
    case AppointmentLink => req.appointmentLink
  }

  function AppointmentField(a: Appointment, f: BookingField): string
  {
    match f
    case Date => a.date
    case TeacherName => a.teacherName
    case TeacherId => a.teacherId
    case StudentName => a.studentName
    case StudentId => a.studentId
    case Course => a.course
    case Location => a.location
    case AppointmentLink => a.appointmentLink
  }

  /** Every member but the link is required. */
  predicate Required(f: BookingField)
  {
    f != AppointmentLink
  }

  /** The handler's guard, a chain of falsy tests over the seven required members. */
  predicate MissingParameter(req: BookingRequest)
  {
    || !Given(req.date)
    || !Given(req.teacherName)
    || !Given(req.teacherId)
    || !Given(req.studentName)
    || !Given(req.studentId)
    || !Given(req.course)
    || !Given(req.location)
  }

  /** The guard rejects a request exactly when some required member is missing or empty. */
  lemma MissingParameterIff(req: BookingRequest)
    ensures MissingParameter(req) <==> exists f :: Required(f) && !Given(RequestField(req, f))
  {
    if MissingParameter(req) {
      var f :=
        if !Given(req.date) then Date
        else if !Given(req.teacherName) then TeacherName
        else if !Given(req.teacherId) then TeacherId
        else if !Given(req.studentName) then StudentName
        else if !Given(req.studentId) then StudentId
        else if !Given(req.course) then Course
        else Location;
      assert Required(f) && !Given(RequestField(req, f));
    } else {
      forall f | Required(f) ensures Given(RequestField(req, f)) {
        match f
        case Date =>
        case TeacherName =>
        case TeacherId =>
        case StudentName =>
        case StudentId =>
        case Course =>
        case Location =>
      }
    }
  }

  /** The appointment record built from a request that passed the field guard. */
  function MakeAppointment(req: BookingRequest): (a: Appointment)
    requires !MissingParameter(req)
    ensures forall f :: Required(f) ==> RequestField(req, f) == Some(AppointmentField(a, f))
    ensures Given(req.appointmentLink) ==> req.appointmentLink == Some(a.appointmentLink)
    ensures !Given(req.appointmentLink) ==> a.appointmentLink == ""
  {
    Appointment(
      req.date.value,
      req.teacherName.value,
      req.teacherId.value,
      req.studentName.value,
      req.studentId.value,
      req.course.value,
      req.location.value,
      if Given(req.appointmentLink) then req.appointmentLink.value else "")
  }

  const LoginFirst: string := "Please login first"
  const MissingParameterError: string := "Missing parameter on request body"

  function TeacherMissingError(req: BookingRequest): string
    requires !MissingParameter(req)
  {
    "Teacher " + req.teacherName.value + " with ID " + req.teacherId.value + " does not exist"
  }

  function StudentMissingError(req: BookingRequest): string
    requires !MissingParameter(req)
  {
    "Student " + req.studentName.value + " with ID " + req.studentId.value + " does not exist"
  }

  /**
   * The response to a booking, decided from the HTTP method, whether a
   * session exists, the body and the collection before the request.
   */
  function Respond(verb: string, session: bool, req: BookingRequest, users: Users): (r: Response<Appointment>)
    ensures verb != "POST" ==> r == Err(400, WrongMethod)
    ensures verb == "POST" && !session ==> r == Err(401, LoginFirst)
    ensures verb == "POST" && session && MissingParameter(req) ==> r == Err(400, MissingParameterError)
    ensures verb == "POST" && session && !MissingParameter(req) && req.teacherId.value !in users ==>
              r == Err(400, TeacherMissingError(req))
    ensures verb == "POST" && session && !MissingParameter(req) && req.teacherId.value in users
              && req.studentId.value !in users ==>
              r == Err(400, StudentMissingError(req))
    ensures r.Ok? <==>
              verb == "POST" && session && !MissingParameter(req)
              && req.teacherId.value in users && req.studentId.value in users
    ensures r.Ok? ==> r.body == MakeAppointment(req) && r.body.teacherId in users && r.body.studentId in users
    ensures r.Err? ==> r.status == 400 || r.status == 401
  {
    if verb != "POST" then Err(400, WrongMethod)
    else if !session then Err(401, LoginFirst)
    else if MissingParameter(req) then Err(400, MissingParameterError)
    else if req.teacherId.value !in users then Err(400, TeacherMissingError(req))
    else if req.studentId.value !in users then Err(400, StudentMissingError(req))
    else Ok(MakeAppointment(req))
  }

  /**
   * One `$push` of an appointment onto the `appointments` of the document
   * with the given id; a filter that matches no document changes nothing.
   */
  function Push(users: Users, id: Id, a: Appointment): (after: Users)
    ensures after.Keys == users.Keys
    ensures id in users ==> after[id] == users[id].(appointments := users[id].appointments + [a])
    ensures forall other :: other in users && other != id ==> after[other] == users[other]
  {
    if id in users then users[id := users[id].(appointments := users[id].appointments + [a])]
    else users
  }

  /** The copies of `a` that a booking appends to the document `id`. */
  function Copies(id: Id, a: Appointment): seq<Appointment>
  {
    (if id == a.teacherId then [a] else []) + (if id == a.studentId then [a] else [])
  }

  /**
   * The collection after a successful booking: the teacher's push, then
   * the student's.
   */
  function Booked(users: Users, a: Appointment): (after: Users)
    requires a.teacherId in users && a.studentId in users
    ensures after.Keys == users.Keys
    ensures forall id :: id in users ==>
              after[id] == users[id].(appointments := users[id].appointments + Copies(id, a))
  {
    Push(Push(users, a.teacherId, a), a.studentId, a)
  }

  /** A successful booking changes no balance and no course list; lists grow only by their copies. */
  lemma BookedKeepsCoins(users: Users, a: Appointment, id: Id)
    requires a.teacherId in users && a.studentId in users && id in users
    ensures id in Booked(users, a)
    ensures Booked(users, a)[id].coins == users[id].coins
    ensures Booked(users, a)[id].courses == users[id].courses
    ensures |Booked(users, a)[id].appointments| == |users[id].appointments| + |Copies(id, a)|
  {
  }

  /** Booking with the same document as teacher and student files two copies in it. */
  lemma SelfBookingFilesTwice(users: Users, a: Appointment)
    requires a.teacherId in users && a.teacherId == a.studentId
    ensures Booked(users, a)[a.teacherId].appointments == users[a.teacherId].appointments + [a, a]
  {
  }
}
