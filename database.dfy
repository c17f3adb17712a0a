// The SQLite tables the backend reads and writes, as fields of one object.
// Each table is a sequence of rows in insertion order (the order an
// unordered SELECT returns them in this model); auto-increment ids come
// from counters that only grow. The schema's uniqueness constraints are
// stated per table and gathered in `Valid`.

module Database {
  import opened Common

  /** A column value of a student profile. */
  datatype Value = Null | Text(text: string) | Number(n: int) | Flag(b: bool)

  datatype UserRow = UserRow(
    id: int,
    name: string,
    email: string,
    passwordHash: Option<string>,
    googleId: Option<string>,
    role: string)

  /** A student_profiles row: its owner and its other columns by name. */
  datatype ProfileRow = ProfileRow(userId: int, columns: map<string, Value>)

  datatype InternshipRow = InternshipRow(
    id: int,
    title: string,
    organization: string,
    location: string,
    description: string,
    skills: Option<string>,  // JSON text; NULL when never written
    status: string,
    kind: string,            // the `type` column
    experienceLevel: string)

  datatype CourseRow = CourseRow(id: int, title: string, provider: string, status: string)

  datatype PrefRow = PrefRow(userId: int, internshipId: int, rank: int)

  /** An allocation; `score100` is one hundred times `match_score`. */
  datatype AllocationRow = AllocationRow(studentId: int, internshipId: int, score100: int, status: string)

  datatype AuditRow = AuditRow(id: int, initiatedBy: string, status: string, details: Option<string>)

  datatype SavedItem = SavedItem(userId: int, itemId: int, itemType: string)

  /** A student_courses row. */
  datatype Enrolment = Enrolment(userId: int, courseId: int, progress: int, status: string)

  /** Unique users.email. */
  predicate EmailsUnique(users: seq<UserRow>) {
    forall i, j :: 0 <= i < j < |users| ==> users[i].email != users[j].email
  }

  /** Unique users.google_id; NULLs do not collide. */
  predicate GoogleIdsUnique(users: seq<UserRow>) {
    forall i, j :: 0 <= i < j < |users| && users[i].googleId.Some? ==> users[i].googleId != users[j].googleId
  }

  /** Unique (user_id, internship_id) in student_preferences. */
  predicate PrefKeysUnique(ps: seq<PrefRow>) {
    forall i, j :: 0 <= i < j < |ps| && ps[i].userId == ps[j].userId ==> ps[i].internshipId != ps[j].internshipId
  }

  /** Unique (user_id, rank) in student_preferences. */
  predicate PrefRanksUnique(ps: seq<PrefRow>) {
    forall i, j :: 0 <= i < j < |ps| && ps[i].userId == ps[j].userId ==> ps[i].rank != ps[j].rank
  }

  /** The enum columns of internships: status, type and experienceLevel. */
  predicate InternshipEnumsOk(r: InternshipRow) {
    r.status in {"Active", "Closed"} &&
    r.kind in {"Remote", "Hybrid", "On-site"} &&
    r.experienceLevel in {"Entry-level", "Mid-level", "Senior"}
  }

  /** `UPDATE internships SET status = ? WHERE id = ?`: the rows with that
      id take the new status, every other row and column is kept. */
  function SetInternshipStatus(rows: seq<InternshipRow>, id: int, status: string): (r: seq<InternshipRow>)
    ensures |r| == |rows|
    ensures forall i :: 0 <= i < |r| ==> r[i].id == rows[i].id && r[i].(status := rows[i].status) == rows[i]
    ensures forall i :: 0 <= i < |r| ==> r[i].status == if rows[i].id == id then status else rows[i].status
  {
    seq(|rows|, i requires 0 <= i < |rows| => if rows[i].id == id then rows[i].(status := status) else rows[i])
  }

  /** `UPDATE courses SET status = ? WHERE id = ?`. */
  function SetCourseStatus(rows: seq<CourseRow>, id: int, status: string): (r: seq<CourseRow>)
    ensures |r| == |rows|
    ensures forall i :: 0 <= i < |r| ==> r[i].id == rows[i].id && r[i].(status := rows[i].status) == rows[i]
    ensures forall i :: 0 <= i < |r| ==> r[i].status == if rows[i].id == id then status else rows[i].status
  {
    seq(|rows|, i requires 0 <= i < |rows| => if rows[i].id == id then rows[i].(status := status) else rows[i])
  }

  /** `UPDATE allocations SET status = ? WHERE student_id = ?`. */
  function SetAllocationStatus(rows: seq<AllocationRow>, studentId: int, status: string): (r: seq<AllocationRow>)
    ensures |r| == |rows|
    ensures forall i :: 0 <= i < |r| ==> r[i].(status := rows[i].status) == rows[i]
    ensures forall i :: 0 <= i < |r| ==> r[i].status == if rows[i].studentId == studentId then status else rows[i].status
  {
    seq(|rows|, i requires 0 <= i < |rows| => if rows[i].studentId == studentId then rows[i].(status := status) else rows[i])
  }

  /** Unique (user_id, course_id) in student_courses. */
  predicate EnrolmentKeysUnique(es: seq<Enrolment>) {
    forall i, j :: 0 <= i < j < |es| ==> es[i].userId != es[j].userId || es[i].courseId != es[j].courseId
  }

  /** The status enum of internship_applications. */
  predicate ApplicationStatusOk(status: string) {
    status in {"Applied", "Interviewing", "Offer Received"}
  }

  class Db {
    var users: seq<UserRow>
    var profiles: seq<ProfileRow>
    var internships: seq<InternshipRow>
    var courses: seq<CourseRow>
    var preferences: seq<PrefRow>
    var allocations: seq<AllocationRow>
    var auditLogs: seq<AuditRow>
    var savedItems: seq<SavedItem>
    var enrolments: seq<Enrolment>
    /** internship_applications, keyed by (user_id, internship_id). */
    var applications: map<(int, int), string>
    var nextUserId: int
    var nextInternshipId: int
    var nextAuditId: int

    /** users: unique email, unique google_id, ids below the counter. */
    predicate UsersValid()
      reads this`users, this`nextUserId
    {
      EmailsUnique(users) && GoogleIdsUnique(users) &&
      (forall i :: 0 <= i < |users| ==> users[i].id < nextUserId) &&
      (forall i, j :: 0 <= i < j < |users| ==> users[i].id != users[j].id)
    }

    /** student_preferences: unique (user_id, internship_id) and (user_id, rank). */
    predicate PreferencesValid()
      reads this`preferences
    {
      PrefKeysUnique(preferences) && PrefRanksUnique(preferences)
    }

    /** allocations: unique student_id. */
    predicate AllocationsValid()
      reads this`allocations
    {
      forall i, j :: 0 <= i < j < |allocations| ==> allocations[i].studentId != allocations[j].studentId
    }

    /** audit_logs: ids below the counter, so a new id is fresh. */
    predicate AuditValid()
      reads this`auditLogs, this`nextAuditId
    {
      forall i :: 0 <= i < |auditLogs| ==> auditLogs[i].id < nextAuditId
    }

    /** internships: ids below the counter, enum columns within their values. */
    predicate InternshipsValid()
      reads this`internships, this`nextInternshipId
    {
      forall i :: 0 <= i < |internships| ==> internships[i].id < nextInternshipId && InternshipEnumsOk(internships[i])
    }

    /** saved_items: unique (user_id, item_id, item_type). */
    predicate SavedItemsValid()
      reads this`savedItems
    {
      NoDup(savedItems)
    }

    /** student_courses: unique (user_id, course_id). */
    predicate EnrolmentsValid()
      reads this`enrolments
    {
      EnrolmentKeysUnique(enrolments)
    }

    /** internship_applications: every status within its enum. */
    predicate ApplicationsValid()
      reads this`applications
    {
      forall k :: k in applications ==> ApplicationStatusOk(applications[k])
    }

    predicate Valid()
      reads this
    {
      UsersValid() && PreferencesValid() && AllocationsValid() && AuditValid() &&
      InternshipsValid() && SavedItemsValid() && EnrolmentsValid() && ApplicationsValid()
    }

    constructor ()
      ensures Valid()
      ensures users == [] && profiles == [] && internships == [] && courses == []
      ensures preferences == [] && allocations == [] && auditLogs == []
      ensures savedItems == [] && enrolments == [] && applications == map[]
    {
      users, profiles, internships, courses := [], [], [], [];
      preferences, allocations, auditLogs := [], [], [];
      savedItems, enrolments, applications := [], [], map[];
      nextUserId, nextInternshipId, nextAuditId := 1, 1, 1;
    }
  }
}
