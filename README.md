# online-classroom: booking, sign-up and course search over the `users` collection

This project models the three API handlers of the online-classroom backend
that work on its one MongoDB collection, `users`. Each user document is a
teacher or a student (one record type with a `teacher` flag). Each holds
contact data, a coin balance, the courses, hours and locations a teacher
offers, reviews, and the appointments it takes part in. Appointments are
embedded by value in both parties' documents.

- `POST /appointment` (module `Booking`, method `Store.UserStore.BookAppointment`)
  runs a chain of early-return guards, in this order: the HTTP method, the
  session, seven required body members, then the existence of the teacher
  and of the student. It then builds the appointment record, with the link
  defaulting to `""`. It pushes that same record onto the teacher's
  `appointments` and then onto the student's. Nothing else is written: no
  balance changes.
- `POST /user` (module `UserCreation`, method `Store.UserStore.CreateUser`)
  requires `name`, `email` and `cellphone`. When `teacher` is truthy it also
  requires `courses`, `available_hours` and `available_locations`. It inserts
  one record with `coins = 1`, no reviews, no appointments, and `[]`/`{}` for
  absent offer members.
- `GET /search` (module `CourseSearch`, method `Store.UserStore.Search`)
  requires a non-empty `courses` string. It returns every user whose course
  list holds that string, or "Course not found" when there is none.

The collection is a `map<Id, User>` held by the class `Store.UserStore`; the
two writing handlers are methods that `modify` it, and search only reads it.
Module `Invariants` states a property of the whole collection that both
writing handlers preserve: every embedded appointment names its holder as a
party, and both its parties exist and hold a copy of it. It also states how
bookings and sign-ups change later course searches.

Modelling choices:

- JavaScript truthiness. A body string counts as given only when it is present
  and not `""` (`Records.Given`). The `courses`, `available_hours` and
  `available_locations` members are an array and an object, so they are truthy
  whenever present, even when empty. The model reads an absent `teacher` as
  `false`, in the validation and also in the stored record. The handler
  itself stores the raw body value, so there an absent flag is stored as
  null and is missing from the response.
- The HTTP method is a string. The session (next-auth `getSession`) is a
  boolean input.
- Document ids are opaque strings and are taken to be well-formed.
  `insertOne` picks some id not yet in the collection, modelled as a
  nondeterministic choice.
- Record members are written in Dafny's camelCase: `teacherId` is the
  document's `teacher_id`, `availableHours` its `available_hours`, and so on.

The booking handler changes no coin balance. It checks neither availability
hours, nor a date in the past, nor double-booking, nor that the "teacher"
document has the teacher role. A teacher may sign up with empty
`courses`/`available_hours`/`available_locations`, because `[]` and `{}` are
truthy. No hour value is range-checked at sign-up. Search reads `courses`
from the request body even though the request is a GET.

## Model

| member | source | states |
|---|---|---|
| Booking.MissingParameterIff | pages/api/appointment.tsx:43-55 | the field guard rejects exactly when one of the seven required members (every member but `appointment_link`) is missing or empty; both directions |
| Booking.MakeAppointment | pages/api/appointment.tsx:79-88 | the appointment carries each of the seven required inputs verbatim; its link is the input when given and `""` otherwise |
| Booking.Respond | pages/api/appointment.tsx:25-107 | guard order: a non-POST gives 400 "Wrong request method"; then no session gives 401 "Please login first", before any body check; then a missing member gives 400; then a missing teacher gives the teacher error, even when the student is missing too; then a missing student gives the student error; success happens exactly when all guards pass, and the body is the built appointment |
| Booking.Push | pages/api/appointment.tsx:90-95 | one `$push` appends the appointment to the matched document's list, and changes nothing when no document matches; no other document and no key changes |
| Booking.Booked | pages/api/appointment.tsx:90-102 | after both pushes the keys are the same; every user's record equals the old one with only `appointments` extended, by one copy for the teacher, one for the student, two when they are the same document, none for anyone else |
| Booking.BookedKeepsCoins | pages/api/appointment.tsx:90-102 | a booking leaves every balance and every course list as it was, and lengthens each list by exactly the copies it receives |
| Booking.SelfBookingFilesTwice | pages/api/appointment.tsx:90-102 | when the teacher id equals the student id, that one document receives two copies |
| Store.UserStore.PushAppointment | pages/api/appointment.tsx:90-95 | the stored map becomes `Push` of the old one |
| Store.UserStore.BookAppointment | pages/api/appointment.tsx:25-107 | returns `Booking.Respond` on the collection as it was; every error leaves the collection unchanged; success leaves it as `Booked` of the old one; it keeps the collection consistent |
| UserCreation.RequiredFields | pages/api/user.tsx:38-53 | contact members are always required; each of `courses`, `available_hours`, `available_locations` is required exactly when `teacher` is truthy |
| UserCreation.MissingBodyParameterIff | pages/api/user.tsx:38-53 | the two-branch validation rejects exactly when a member required for the request's role is not supplied; both directions |
| UserCreation.NewUser | pages/api/user.tsx:55-67 | the inserted record has `coins == 1` and empty `reviews` and `appointments` whatever the input; its contact members and flag are the input's; present offer members are stored unchanged, and absent ones become `[]`, `{}`, `[]` |
| UserCreation.Validate | pages/api/user.tsx:27-72 | a non-POST gives 400 "Wrong request method"; a failed validation gives 400 "Missing body parameter"; success happens exactly otherwise, and the result is the default-filled record |
| UserCreation.StudentNeedsOnlyContact | pages/api/user.tsx:38-41 | a non-teacher with non-empty name, email and cellphone is accepted whatever else the body holds |
| UserCreation.EmptyOfferIsSupplied | pages/api/user.tsx:42-53 | a teacher with an empty course list, hour table and location list is accepted |
| Store.FreshIdExists | pages/api/user.tsx:56 | the collection always has an unused id for `insertOne` to assign |
| Store.UserStore.InsertOne | pages/api/user.tsx:56-67 | the collection gains exactly the given record under an id it did not have; no existing record changes |
| Store.UserStore.CreateUser | pages/api/user.tsx:27-72 | a rejected request leaves the collection unchanged and answers `Validate`'s error; an accepted one inserts `Validate`'s record under a fresh id, changes nothing else, and returns that id and record; it keeps the collection consistent |
| CourseSearch.Matching | pages/api/search.tsx:24-26 | holds exactly the users whose course list contains the name, each with its stored record, and no one else |
| CourseSearch.Respond | pages/api/search.tsx:13-35 | a non-GET gives 400 "Wrong request method"; a missing or empty name gives 400 "Missing course name on request body"; an empty match gives 400 "Course not found"; otherwise the whole non-empty match is returned |
| Store.UserStore.Search | pages/api/search.tsx:13-35 | answers `CourseSearch.Respond` on the current collection, whose success holds exactly the users listing the course; the method has no `modifies` clause, so the collection cannot change |
| Invariants.BookingKeepsConsistent | pages/api/appointment.tsx:90-102 | if every embedded appointment names its holder and is held by both its existing parties, that still holds after a booking, the new appointment included |
| Invariants.InsertKeepsConsistent | pages/api/user.tsx:56-67 | inserting a record with no appointments under an unused id keeps the collection consistent |
| Invariants.BookingKeepsSearch | pages/api/appointment.tsx:90-102 | after a booking, every course search matches the same users as before |
| Invariants.InsertExtendsSearch | pages/api/user.tsx:56-67 | after a sign-up, a course search also matches the new user exactly when that user lists the course; earlier matches are kept |

## Left out

- MongoDB itself: connection, queries, and the BSON form of documents. The collection is an in-memory map.
- `new ObjectID(...)` throwing on a malformed id string: ids are opaque and assumed valid, and the handlers do not handle that exception.
- The many-to-one conversion of id strings by `new ObjectID(...)`: 24-digit hex is read case-insensitively and a 12-character string is read as raw bytes, so several strings name one document. The model names each document by exactly one id string and takes requests to use that form. It therefore does not capture a booking that finds its teacher or student through another spelling of the id, nor an appointment whose stored `teacher_id`/`student_id` differs in spelling from its holder's `_id`. The "names its holder" clause of `Invariants.Consistent` and the same-document case of `Booking.SelfBookingFilesTwice` rely on this one-spelling reading.
- Session lookup: next-auth's `getSession` is a boolean input.
- Asynchrony: the gap between the two `updateOne` calls, partial failure of the second, and concurrent bookings. The two pushes are sequential and both take effect.
- The order of search results: `find().toArray()` returns an array in the collection's natural order, and the model returns the matched documents as a map from id to record.
- Search when a document's `courses` is not an array: MongoDB would then compare the value for equality. Only list membership is modelled.
- HTTP and JSON encoding beyond the status, the error string and the body.
- JavaScript values of the wrong type in a request body (a number where a string is expected, say): every string member is a string or absent, and `teacher` is a boolean.
- Coin debit and credit, availability hours, the −3 hour offset, the date-in-the-past check, double-booking, the hour range [7, 20], and prefix search (`pages/api/search/[courses].tsx`). None of these is in the handlers modelled, so the model has none of them.
- `pages/search.tsx` is a sign-in page with no logic; `pages/api/user/[email].tsx` and `pages/api/teacher/[id].tsx` are lookups outside this model.
