/**
 * Facts about the collection that hold across handlers: every embedded
 * appointment is filed with both of its parties, and how the writes of the
 * other handlers show up in a course search.
 */
module Invariants {
  import opened Records
  import Booking
  import CourseSearch

  /** Both parties of `a` exist and both hold a copy of it. */
  ghost predicate Filed(users: Users, a: Appointment)
  {
    && a.teacherId in users
    && a.studentId in users
    && a in users[a.teacherId].appointments
    && a in users[a.studentId].appointments
  }

  /** Every appointment a user holds names that user as a party and is filed with both parties. */
  ghost predicate Consistent(users: Users)
  {
    forall id, a :: id in users && a in users[id].appointments ==>
      (id == a.teacherId || id == a.studentId) && Filed(users, a)
  }

  /** A successful booking keeps every appointment filed with both parties, the new one included. */
  lemma {:induction false} BookingKeepsConsistent(users: Users, a: Appointment)
    requires Consistent(users)
    requires a.teacherId in users && a.studentId in users
    ensures Consistent(Booking.Booked(users, a))
  {
    var after := Booking.Booked(users, a);
    forall id, b | id in after && b in after[id].appointments
      ensures (id == b.teacherId || id == b.studentId) && Filed(after, b)
    {
      assert after[id].appointments == users[id].appointments + Booking.Copies(id, a);
      if b in users[id].appointments {
        assert Filed(users, b);
        assert b in after[b.teacherId].appointments by {
          assert after[b.teacherId].appointments
              == users[b.teacherId].appointments + Booking.Copies(b.teacherId, a);
        }
        assert b in after[b.studentId].appointments by {
          assert after[b.studentId].appointments
              == users[b.studentId].appointments + Booking.Copies(b.studentId, a);
        }
      } else {
        assert b in Booking.Copies(id, a);
        assert b == a;
        assert Booking.Copies(a.teacherId, a)[0] == a;
        assert a in after[a.teacherId].appointments;
        assert a in Booking.Copies(a.studentId, a);
        assert a in after[a.studentId].appointments;
      }
    }
  }

  /** Inserting a user with no appointments under an unused id keeps the collection consistent. */
  lemma InsertKeepsConsistent(users: Users, id: Id, u: User)
    requires Consistent(users)
    requires id !in users && u.appointments == []
    ensures Consistent(users[id := u])
  {
  }

  /** Booking changes only appointment lists, so every course search finds the same users. */
  lemma BookingKeepsSearch(course: string, users: Users, a: Appointment)
    requires a.teacherId in users && a.studentId in users
    ensures CourseSearch.Matching(course, Booking.Booked(users, a)).Keys == CourseSearch.Matching(course, users).Keys
  {
  }

  /** A new user is found by exactly the courses it lists, and the earlier results are kept. */
  lemma InsertExtendsSearch(course: string, users: Users, id: Id, u: User)
    requires id !in users
    ensures CourseSearch.Matching(course, users[id := u]) ==
              if course in u.courses then CourseSearch.Matching(course, users)[id := u]
              else CourseSearch.Matching(course, users)
  {
  }
}
