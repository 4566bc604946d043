/**
 * The documents of the `users` collection and the response shape shared by
 * the API handlers. The collection itself is a finite map from document
 * identifier to user record; MongoDB's own behaviour is not modelled.
 */
module Records {

  datatype Option<+T> = None | Some(value: T)

  /** The `_id` of a document in `users`, taken as an opaque, valid token. */
  type Id = string

  /**
   * A string from a request body is usable by a handler only when it is
   * JavaScript-truthy: present, and not the empty string.
   */
  predicate Given(field: Option<string>)
  {
    field.Some? && field.value != ""
  }

  /** An appointment, embedded by value in both parties' `appointments`. */
  datatype Appointment = Appointment(
    date: string,
    teacherName: string,
    teacherId: Id,
    studentName: string,
    studentId: Id,
    course: string,
    location: string,
    appointmentLink: string)

  /** A review; the handlers only ever store an empty list of them. */
  datatype Review = Review(fields: map<string, string>)

  /** A teacher or a student: one record type, told apart by `teacher`. */
  datatype User = User(
    name: string,
    email: string,
    cellphone: string,
    teacher: bool,
    coins: int,
    courses: seq<string>,
    availableHours: map<string, seq<int>>,
    availableLocations: seq<string>,
    reviews: seq<Review>,
    appointments: seq<Appointment>)

  /** The `users` collection. */
  type Users = map<Id, User>

  /** A stored document as a handler returns it: its `_id` and its fields. */
  datatype Document = Document(id: Id, user: User)

  /**
   * What a handler sends back: status 200 with a JSON body, or a status and
   * a JSON object whose only member is an `error` string.
   */
  datatype Response<+T> = Ok(body: T) | Err(status: int, error: string)

  const WrongMethod: string := "Wrong request method"
}
