/**
 * The `users` collection as an object whose handlers update it in place:
 * `POST /appointment` pushes onto two documents, `POST /user` inserts one,
 * `GET /search` only reads.
 */
module Store {
  import opened Records
  import Booking
  import UserCreation
  import CourseSearch
  import Invariants

  /** A length no identifier in `ids` reaches. */
  ghost function LengthBound(ids: set<Id>): (n: nat)
    ensures forall id :: id in ids ==> |id| < n
    decreases ids
  {
    if ids == {} then 0
    else
      var x :| x in ids;
      var m := LengthBound(ids - {x});
      if |x| < m then m else |x| + 1
  }

  /** However many documents there are, some identifier is still unused. */
  lemma FreshIdExists(ids: set<Id>)
    ensures exists id :: id !in ids
  {
    var unused := seq(LengthBound(ids), _ => 'x');
    assert unused !in ids;
  }

  class UserStore {
    var users: Users

    /** An empty collection. */
    constructor ()
      ensures users == map[]
    {
      users := map[];
    }

    /** `updateOne({ _id: id }, { $push: { appointments: a } })`. */
    method PushAppointment(id: Id, a: Appointment)
      modifies this
      ensures users == Booking.Push(old(users), id, a)
    {
      if id in users {
        users := users[id := users[id].(appointments := users[id].appointments + [a])];
      }
    }

    /** `insertOne(u)`: the store picks an unused `_id`. */
    method InsertOne(u: User) returns (id: Id)
      modifies this
      ensures id !in old(users)
      ensures users == old(users)[id := u]
    {
      FreshIdExists(users.Keys);
      id :| id !in users;
      users := users[id := u];
    }

    /** The `POST /appointment` handler. */
    method BookAppointment(verb: string, session: bool, req: Booking.BookingRequest)
      returns (resp: Response<Appointment>)
      modifies this
      ensures resp == Booking.Respond(verb, session, req, old(users))
      ensures resp.Err? ==> users == old(users)
      ensures resp.Ok? ==> users == Booking.Booked(old(users), resp.body)
      ensures Invariants.Consistent(old(users)) ==> Invariants.Consistent(users)
    {
      if verb != "POST" {
        return Err(400, WrongMethod);
      }
      if !session {
        return Err(401, Booking.LoginFirst);
      }
      if Booking.MissingParameter(req) {
        return Err(400, Booking.MissingParameterError);
      }
      if req.teacherId.value !in users {
        return Err(400, Booking.TeacherMissingError(req));
      }
      if req.studentId.value !in users {
        return Err(400, Booking.StudentMissingError(req));
      }
      var appointment := Booking.MakeAppointment(req);
      ghost var before := users;
      PushAppointment(appointment.teacherId, appointment);
      PushAppointment(appointment.studentId, appointment);
      if Invariants.Consistent(before) {
        Invariants.BookingKeepsConsistent(before, appointment);
      }
      return Ok(appointment);
    }

    /** The `POST /user` handler. */
    method CreateUser(verb: string, req: UserCreation.NewUserRequest) returns (resp: Response<Document>)
      modifies this
      ensures var v := UserCreation.Validate(verb, req);
                v.Err? ==> resp == Err(v.status, v.error) && users == old(users)
      ensures var v := UserCreation.Validate(verb, req);
                v.Ok? ==> resp.Ok? && resp.body.user == v.body
      ensures resp.Ok? ==> resp.body.id !in old(users) && users == old(users)[resp.body.id := resp.body.user]
      ensures Invariants.Consistent(old(users)) ==> Invariants.Consistent(users)
    {
      if verb != "POST" {
        return Err(400, WrongMethod);
      }
      if UserCreation.MissingBodyParameter(req) {
        return Err(400, UserCreation.MissingBodyParameterError);
      }
      var u := UserCreation.NewUser(req);
      ghost var before := users;
      var id := InsertOne(u);
      if Invariants.Consistent(before) {
        Invariants.InsertKeepsConsistent(before, id, u);
      }
      return Ok(Document(id, u));
    }

    /** The `GET /search` handler: it reads the collection and writes nothing. */
    method Search(verb: string, req: CourseSearch.SearchRequest) returns (resp: Response<Users>)
      ensures resp == CourseSearch.Respond(verb, req, users)
      ensures resp.Ok? ==> forall id :: id in resp.body <==> id in users && req.courses.value in users[id].courses
    {
      resp := CourseSearch.Respond(verb, req, users);
    }
  }
}
