/**
 * The rule of `POST /user`: which body members are required, depending on
 * the `teacher` flag, and the record with its fixed defaults that is
 * inserted when they are all there.
 */
module UserCreation {
  import opened Records

  /**
   * The request body of `POST /user`. The three lists and the hour table are
   * JavaScript arrays and objects, truthy whenever present (even when empty);
   * an absent `teacher` reads as false, and is stored as false too (the
   * handler itself stores the raw value, null when absent).
   */
  datatype NewUserRequest = NewUserRequest(
    name: Option<string>,
    email: Option<string>,
    cellphone: Option<string>,
    teacher: bool,
    courses: Option<seq<string>>,
    availableHours: Option<map<string, seq<int>>>,
    availableLocations: Option<seq<string>>)

  datatype UserField = Name | Email | Cellphone | Courses | AvailableHours | AvailableLocations

  /** Whether a member is supplied in the truthy sense the handler tests. */
  predicate Supplied(req: NewUserRequest, f: UserField)
  {
    match f
    case Name => Given(req.name)
    case Email => Given(req.email)
    case Cellphone => Given(req.cellphone)
    case Courses => req.courses.Some?
    case AvailableHours => req.availableHours.Some?
    case AvailableLocations => req.availableLocations.Some?
  }

  /** Contact members for everyone; a teacher's offer on top of them. */
  function RequiredFields(teacher: bool): (fields: set<UserField>)
    ensures {Name, Email, Cellphone} <= fields
    ensures teacher <==> Courses in fields
    ensures teacher <==> AvailableHours in fields
    ensures teacher <==> AvailableLocations in fields
  {
    {Name, Email, Cellphone} + (if teacher then {Courses, AvailableHours, AvailableLocations} else {})
  }

  /** The handler's two-branch validation, as written: non-teachers, then teachers. */
  predicate MissingBodyParameter(req: NewUserRequest)
  {
    if !req.teacher then
      !Given(req.name) || !Given(req.email) || !Given(req.cellphone)
    else
      || !Given(req.name)
      || !Given(req.email)
      || !Given(req.cellphone)
      || req.courses.None?
      || req.availableHours.None?
      || req.availableLocations.None?
  }

  /** The validation fails exactly when a member required for the request's role is not supplied. */
  lemma MissingBodyParameterIff(req: NewUserRequest)
    ensures MissingBodyParameter(req) <==> exists f :: f in RequiredFields(req.teacher) && !Supplied(req, f)
  {
    var required := RequiredFields(req.teacher);
    if MissingBodyParameter(req) {
      var f :=
        if !Given(req.name) then Name
        else if !Given(req.email) then Email
        else if !Given(req.cellphone) then Cellphone
        else if req.courses.None? then Courses
        else if req.availableHours.None? then AvailableHours
        else AvailableLocations;
      assert f in required && !Supplied(req, f);
    } else {
      forall f | f in required ensures Supplied(req, f) {
        match f
        case Name =>
        case Email =>
        case Cellphone =>
        case Courses =>
        case AvailableHours =>
        case AvailableLocations =>
      }
    }
  }

  /** The record inserted for a request that passed validation. */
  function NewUser(req: NewUserRequest): (u: User)
    requires !MissingBodyParameter(req)
    ensures u.coins == 1 && u.reviews == [] && u.appointments == []
    ensures Some(u.name) == req.name && Some(u.email) == req.email && Some(u.cellphone) == req.cellphone
    ensures u.teacher == req.teacher
    ensures req.courses.Some? ==> u.courses == req.courses.value
    ensures req.courses.None? ==> u.courses == []
    ensures req.availableHours.Some? ==> u.availableHours == req.availableHours.value
    ensures req.availableHours.None? ==> u.availableHours == map[]
    ensures req.availableLocations.Some? ==> u.availableLocations == req.availableLocations.value
    ensures req.availableLocations.None? ==> u.availableLocations == []
  {
    User(
      req.name.value,
      req.email.value,
      req.cellphone.value,
      req.teacher,
      1,
      if req.courses.Some? then req.courses.value else [],
      if req.availableHours.Some? then req.availableHours.value else map[],
      if req.availableLocations.Some? then req.availableLocations.value else [],
      [],
      [])
  }

  const MissingBodyParameterError: string := "Missing body parameter"

  /**
   * What the handler decides before it touches the collection: an error
   * response, or the record to insert.
   */
  function Validate(verb: string, req: NewUserRequest): (r: Response<User>)
    ensures verb != "POST" ==> r == Err(400, WrongMethod)
    ensures verb == "POST" && MissingBodyParameter(req) ==> r == Err(400, MissingBodyParameterError)
    ensures r.Ok? <==> verb == "POST" && !MissingBodyParameter(req)
    ensures r.Ok? ==> r.body.coins == 1 && r.body.reviews == [] && r.body.appointments == []
    ensures r.Ok? ==> r.body == NewUser(req)
  {
    if verb != "POST" then Err(400, WrongMethod)
    else if MissingBodyParameter(req) then Err(400, MissingBodyParameterError)
    else Ok(NewUser(req))
  }

  /** A non-teacher is accepted on the three contact members alone. */
  lemma StudentNeedsOnlyContact(req: NewUserRequest)
    requires !req.teacher && Given(req.name) && Given(req.email) && Given(req.cellphone)
    ensures Validate("POST", req).Ok?
  {
  }

  /** A teacher whose offer is empty but present passes: `[]` and `{}` are truthy. */
  lemma EmptyOfferIsSupplied(name: string, email: string, cellphone: string)
    requires name != "" && email != "" && cellphone != ""
    ensures Validate("POST", NewUserRequest(Some(name), Some(email), Some(cellphone), true,
                                            Some([]), Some(map[]), Some([]))).Ok?
  {
  }
}
