/**
 * The rule of `GET /search`: the users whose course list holds the
 * requested name, or an error when there are none. Nothing is written.
 */
module CourseSearch {
  import opened Records

  /** The handler reads `courses` from the request body, even on a GET. */
  datatype SearchRequest = SearchRequest(courses: Option<string>)

  /** The documents matched by the filter `{ courses: course }`, keyed by id and unchanged. */
  function Matching(course: string, users: Users): (found: Users)
    ensures found.Keys <= users.Keys
    ensures forall id :: id in users && course in users[id].courses ==> id in found
    ensures forall id :: id in found ==> course in users[id].courses && found[id] == users[id]
  {
    map id | id in users && course in users[id].courses :: users[id]
  }

  const MissingCourseError: string := "Missing course name on request body"
  const CourseNotFound: string := "Course not found"

  /** The response to a search over the collection as it is. */
  function Respond(verb: string, req: SearchRequest, users: Users): (r: Response<Users>)
    ensures verb != "GET" ==> r == Err(400, WrongMethod)
    ensures verb == "GET" && !Given(req.courses) ==> r == Err(400, MissingCourseError)
    ensures verb == "GET" && Given(req.courses) && Matching(req.courses.value, users) == map[] ==>
              r == Err(400, CourseNotFound)
    ensures r.Ok? <==> verb == "GET" && Given(req.courses) && Matching(req.courses.value, users) != map[]
    ensures r.Ok? ==> r.body == Matching(req.courses.value, users) && |r.body| > 0
  {
    if verb != "GET" then Err(400, WrongMethod)
    else if !Given(req.courses) then Err(400, MissingCourseError)
    else
      var found := Matching(req.courses.value, users);
      if |found| == 0 then Err(400, CourseNotFound) else Ok(found)
  }
}
