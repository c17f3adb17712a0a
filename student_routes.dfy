// The handlers of backend/routes/student.js that read and write the
// tables: the ranked preference list, the profile and its quick stats, the
// answer to an offer, the course lists, saved items, application statuses
// and enrolment. SQLite runs with foreign keys off (the pool never enables
// them), so only the unique, NOT NULL and enum constraints can reject a
// write here.

module StudentRoutes {
  import opened Common
  import opened Json
  import opened Database
  import opened EngineCandidates

  // ---------------------------------------------------------------------
  // POST /preferences (:143-171)
  // ---------------------------------------------------------------------

  function OwnedBy(userId: int): PrefRow -> bool {
    (p: PrefRow) => p.userId == userId
  }

  function NotOwnedBy(userId: int): PrefRow -> bool {
    (p: PrefRow) => p.userId != userId
  }

  /** The rows inserted for `rankedIds`: the id at index i gets rank i + 1. */
  function RankRows(userId: int, ids: seq<int>): (r: seq<PrefRow>)
    ensures |r| == |ids|
    ensures forall i :: 0 <= i < |r| ==> r[i] == PrefRow(userId, ids[i], i + 1)
  {
    seq(|ids|, i requires 0 <= i < |ids| => PrefRow(userId, ids[i], i + 1))
  }

  /** The table after the delete and the insert of one save. */
  function ReplacePrefs(prefs: seq<PrefRow>, userId: int, ids: seq<int>): seq<PrefRow> {
    Filter(prefs, NotOwnedBy(userId)) + RankRows(userId, ids)
  }

  /** The insert breaks neither unique key exactly when no id is listed
      twice: the ranks 1..n never collide, and the other users' rows share
      no user_id with the new ones. */
  lemma ReplaceUniqueIff(prefs: seq<PrefRow>, userId: int, ids: seq<int>)
    requires PrefKeysUnique(prefs) && PrefRanksUnique(prefs)
    ensures PrefRanksUnique(ReplacePrefs(prefs, userId, ids))
    ensures PrefKeysUnique(ReplacePrefs(prefs, userId, ids)) <==> NoDup(ids)
  {
    var kept := Filter(prefs, NotOwnedBy(userId));
    var rows := RankRows(userId, ids);
    var s := kept + rows;
    var keyRel := (a: PrefRow, b: PrefRow) => a.userId == b.userId ==> a.internshipId != b.internshipId;
    var rankRel := (a: PrefRow, b: PrefRow) => a.userId == b.userId ==> a.rank != b.rank;
    FilterPairwise(prefs, NotOwnedBy(userId), keyRel);
    FilterPairwise(prefs, NotOwnedBy(userId), rankRel);
    forall i, j | 0 <= i < j < |s|
      ensures rankRel(s[i], s[j])
    {
      if j < |kept| {
        assert s[i] == kept[i] && s[j] == kept[j];
        assert rankRel(kept[i], kept[j]);
      } else if i < |kept| {
        assert s[i] == kept[i] && NotOwnedBy(userId)(kept[i]);
        assert s[j] == rows[j - |kept|];
      } else {
        assert s[i] == rows[i - |kept|] && s[j] == rows[j - |kept|];
      }
    }
    if NoDup(ids) {
      forall i, j | 0 <= i < j < |s|
        ensures keyRel(s[i], s[j])
      {
        if j < |kept| {
          assert s[i] == kept[i] && s[j] == kept[j];
          assert keyRel(kept[i], kept[j]);
        } else if i < |kept| {
          assert s[i] == kept[i] && NotOwnedBy(userId)(kept[i]);
          assert s[j] == rows[j - |kept|];
        } else {
          assert s[i] == rows[i - |kept|] && s[j] == rows[j - |kept|];
        }
      }
    } else {
      var a, b :| 0 <= a < b < |ids| && ids[a] == ids[b];
      assert s[|kept| + a] == rows[a] && s[|kept| + b] == rows[b];
    }
  }

  /** Saving a list: 400 and no change when `rankedIds` (None) is not an
      array; otherwise, in one transaction, the user's rows are deleted and
      the list is inserted with ranks 1..n. A repeated id breaks the unique
      (user_id, internship_id) key, the transaction rolls back and the
      answer is 500. */
  method SavePreferences(db: Db, userId: int, rankedIds: Option<seq<int>>) returns (code: int)
    requires db.PreferencesValid()
    modifies db`preferences
    ensures db.PreferencesValid()
    ensures code == (if rankedIds.None? then 400 else if NoDup(rankedIds.value) then 200 else 500)
    ensures db.preferences == if code == 200 then ReplacePrefs(old(db.preferences), userId, rankedIds.value)
                              else old(db.preferences)
  {
    if rankedIds.None? {
      return 400;
    }
    var ids := rankedIds.value;
    var before := db.preferences;
    ReplaceUniqueIff(before, userId, ids);
    db.preferences := Filter(db.preferences, NotOwnedBy(userId));
    if |ids| > 0 {
      var rows := RankRows(userId, ids);
      if !PrefKeysUnique(db.preferences + rows) || !PrefRanksUnique(db.preferences + rows) {
        db.preferences := before;
        return 500;
      }
      db.preferences := db.preferences + rows;
    } else {
      assert db.preferences == db.preferences + RankRows(userId, ids);
    }
    code := 200;
  }

  /** After a save the user's rows are the list, in order, with ranks 1..n
      (none for an empty list); every other user's rows are untouched. */
  lemma SavedListIsRanked(prefs: seq<PrefRow>, userId: int, ids: seq<int>, other: int)
    ensures Filter(ReplacePrefs(prefs, userId, ids), OwnedBy(userId)) == RankRows(userId, ids)
    ensures other != userId ==>
      Filter(ReplacePrefs(prefs, userId, ids), OwnedBy(other)) == Filter(prefs, OwnedBy(other))
  {
    var kept := Filter(prefs, NotOwnedBy(userId));
    var rows := RankRows(userId, ids);
    FilterAppend(kept, rows, OwnedBy(userId));
    FilterNone(kept, OwnedBy(userId));
    FilterKeepsAll(rows, OwnedBy(userId));
    assert Filter(kept, OwnedBy(userId)) + rows == rows;
    if other != userId {
      FilterAppend(kept, rows, OwnedBy(other));
      FilterNone(rows, OwnedBy(other));
      FilterFilter(prefs, NotOwnedBy(userId), OwnedBy(other));
      assert Filter(kept, OwnedBy(other)) + [] == Filter(kept, OwnedBy(other));
    }
  }

  /** The rank the engine reads for the i-th saved internship is i + 1, the
      position shown next to it when the list was saved. */
  lemma SavedPrefIsFound(prefs: seq<PrefRow>, userId: int, ids: seq<int>, i: nat)
    requires PrefKeysUnique(prefs) && PrefRanksUnique(prefs) && NoDup(ids) && i < |ids|
    ensures FindPref(ReplacePrefs(prefs, userId, ids), userId, ids[i]) == Some(PrefRow(userId, ids[i], i + 1))
  {
    ReplaceUniqueIff(prefs, userId, ids);
    var kept := Filter(prefs, NotOwnedBy(userId));
    var s := ReplacePrefs(prefs, userId, ids);
    assert s[|kept| + i] == PrefRow(userId, ids[i], i + 1);
    UniquePrefIsFound(s, PrefRow(userId, ids[i], i + 1));
  }

  // ---------------------------------------------------------------------
  // PUT /profile (:54-68)
  // ---------------------------------------------------------------------

  /** The columns of student_profiles. */
  const ProfileColumns: set<string> :=
    {"id", "user_id", "name", "email", "phone", "university", "college", "degree", "branch", "year", "cgpa",
     "creditsEarned", "district", "skills", "consent_resume_parsing", "consent_profile_sharing",
     "avatar_url", "resume_url"}

  /** The keys the handler takes out of the body before the update. */
  const ProtectedKeys: set<string> := {"id", "user_id", "email"}

  /** `dataToUpdate`: the body without id, user_id and email, with truthy
      skills replaced by their JSON text. */
  function ProfileData(body: map<string, JsonVal>): (r: map<string, JsonVal>)
    ensures r.Keys == body.Keys - ProtectedKeys
    ensures forall k :: k in r && k != "skills" ==> r[k] == body[k]
    ensures "skills" in r && JsonTruthy(body["skills"]) ==> r["skills"] == JStr(Stringify(body["skills"]))
    ensures "skills" in r && !JsonTruthy(body["skills"]) ==> r["skills"] == body["skills"]
  {
    var data := map k | k in body && k !in ProtectedKeys :: body[k];
    if "skills" in data && JsonTruthy(data["skills"]) then data["skills" := JStr(Stringify(data["skills"]))]
    else data
  }

  /** The value a body field binds to its column. */
  function ColumnValue(v: JsonVal): Value {
    match v
    case JNull => Null
    case JBool(b) => Flag(b)
    case JNum(n) => Number(n)
    case JStr(s) => Text(s)
    case JStrs(_) => Text(Stringify(v))
  }

  function Columns(data: map<string, JsonVal>): (r: map<string, Value>)
    ensures r.Keys == data.Keys
  {
    map k | k in data :: ColumnValue(data[k])
  }

  /** `UPDATE student_profiles SET ... WHERE user_id = ?` */
  function UpdateProfiles(profiles: seq<ProfileRow>, userId: int, cols: map<string, Value>): (r: seq<ProfileRow>)
    ensures |r| == |profiles|
    ensures forall i :: 0 <= i < |r| ==> r[i].userId == profiles[i].userId
  {
    seq(|profiles|, i requires 0 <= i < |profiles| =>
      if profiles[i].userId == userId then profiles[i].(columns := profiles[i].columns + cols) else profiles[i])
  }

  /** 500 and no change when nothing is left to update (the query builder
      refuses an empty update) or a key names no column; otherwise the
      user's profile takes the remaining fields. */
  method UpdateProfile(db: Db, userId: int, body: map<string, JsonVal>) returns (code: int)
    modifies db`profiles
    ensures var data := ProfileData(body);
      code == (if data.Keys == {} || !(data.Keys <= ProfileColumns) then 500 else 200)
    ensures db.profiles == if code == 200 then UpdateProfiles(old(db.profiles), userId, Columns(ProfileData(body)))
                           else old(db.profiles)
  {
    var data := ProfileData(body);
    if data.Keys == {} || !(data.Keys <= ProfileColumns) {
      return 500;
    }
    db.profiles := UpdateProfiles(db.profiles, userId, Columns(data));
    code := 200;
  }

  /** The update never writes id, user_id or email, whatever the body
      holds, and never moves a profile to another user. */
  lemma ProfileUpdateKeepsIdentity(profiles: seq<ProfileRow>, userId: int, body: map<string, JsonVal>, i: nat, k: string)
    requires i < |profiles| && k in ProtectedKeys
    ensures var r := UpdateProfiles(profiles, userId, Columns(ProfileData(body)));
      r[i].userId == profiles[i].userId &&
      (k in r[i].columns <==> k in profiles[i].columns) &&
      (k in profiles[i].columns ==> r[i].columns[k] == profiles[i].columns[k])
  {
    assert k !in Columns(ProfileData(body));
  }

  // ---------------------------------------------------------------------
  // GET /profile (:29-51)
  // ---------------------------------------------------------------------

  /** `JSON.parse(profile.skills || '[]')`; None when the parse throws. */
  function ProfileSkills(column: Option<Value>): Option<JsonVal> {
    match column
    case None => Some(JStrs([]))
    case Some(Null) => Some(JStrs([]))
    case Some(Text(t)) => if t == "" then Some(JStrs([])) else ParseJson(t)
    case Some(Number(n)) => if n == 0 then Some(JStrs([])) else ParseJson(IntToString(n))
    case Some(Flag(b)) => if b then ParseJson("true") else Some(JStrs([]))
  }

  /** Skills saved through the profile update read back as they were sent. */
  lemma UpdateThenReadSkills(profiles: seq<ProfileRow>, userId: int, body: map<string, JsonVal>, i: nat)
    requires "skills" in body && JsonTruthy(body["skills"])
    requires i < |profiles| && profiles[i].userId == userId
    ensures var r := UpdateProfiles(profiles, userId, Columns(ProfileData(body)));
      "skills" in r[i].columns && ProfileSkills(Some(r[i].columns["skills"])) == Some(body["skills"])
  {
    JsonRoundTrip(body["skills"]);
  }

  /** `.where({ user_id }).first()` */
  function FirstProfile(profiles: seq<ProfileRow>, userId: int): (r: Option<ProfileRow>)
    ensures r.Some? ==> r.value in profiles && r.value.userId == userId
    ensures r.None? <==> forall i :: 0 <= i < |profiles| ==> profiles[i].userId != userId
  {
    if profiles == [] then None
    else if profiles[0].userId == userId then Some(profiles[0])
    else FirstProfile(profiles[1..], userId)
  }

  function AllocationStatus(allocations: seq<AllocationRow>, userId: int): string {
    if exists i :: 0 <= i < |allocations| && allocations[i].studentId == userId then "Allocated" else "Not Allocated"
  }

  datatype ProfileResponse =
    | ProfileNotFound
    | ProfileFailed
    | ProfileFound(profile: ProfileRow, skills: JsonVal, preferencesSubmitted: nat, allocationStatus: string)

  /** 404 without a profile, 500 when its skills do not parse, else the
      profile with the number of preference rows and the allocation state. */
  function GetProfile(profiles: seq<ProfileRow>, prefs: seq<PrefRow>, allocations: seq<AllocationRow>,
                      userId: int): ProfileResponse {
    match FirstProfile(profiles, userId)
    case None => ProfileNotFound
    case Some(p) =>
      var column := if "skills" in p.columns then Some(p.columns["skills"]) else None;
      match ProfileSkills(column)
      case None => ProfileFailed
      case Some(skills) => ProfileFound(p, skills, |Filter(prefs, OwnedBy(userId))|, AllocationStatus(allocations, userId))
  }

  /** The quick stats: the count is the length of the last saved list, and
      the allocation state is "Allocated" exactly when the student has an
      allocation row. */
  lemma QuickStatsAfterSave(profiles: seq<ProfileRow>, prefs: seq<PrefRow>, allocations: seq<AllocationRow>,
                            userId: int, ids: seq<int>)
    requires GetProfile(profiles, ReplacePrefs(prefs, userId, ids), allocations, userId).ProfileFound?
    ensures var r := GetProfile(profiles, ReplacePrefs(prefs, userId, ids), allocations, userId);
      r.preferencesSubmitted == |ids| &&
      (r.allocationStatus == "Allocated" <==> exists i :: 0 <= i < |allocations| && allocations[i].studentId == userId) &&
      (r.allocationStatus != "Allocated" ==> r.allocationStatus == "Not Allocated")
  {
    SavedListIsRanked(prefs, userId, ids, userId);
  }

  // ---------------------------------------------------------------------
  // POST /allocation/respond (:199-210)
  // ---------------------------------------------------------------------

  predicate OfferResponse(status: Option<string>) {
    status.Some? && status.value in {"Accepted", "Declined"}
  }

  /** 400 and no change for anything but "Accepted" or "Declined";
      otherwise the student's allocation takes it, whatever it held. */
  method RespondToOffer(db: Db, userId: int, status: Option<string>) returns (code: int)
    requires db.AllocationsValid()
    modifies db`allocations
    ensures db.AllocationsValid()
    ensures code == (if OfferResponse(status) then 200 else 400)
    ensures db.allocations == if OfferResponse(status) then SetAllocationStatus(old(db.allocations), userId, status.value)
                              else old(db.allocations)
  {
    if !OfferResponse(status) {
      return 400;
    }
    db.allocations := SetAllocationStatus(db.allocations, userId, status.value);
    code := 200;
  }

  /** Answering an offer never changes who counts as allocated. */
  lemma RespondKeepsAllocationStatus(allocations: seq<AllocationRow>, userId: int, status: string, who: int)
    ensures AllocationStatus(SetAllocationStatus(allocations, userId, status), who) == AllocationStatus(allocations, who)
  {
    var r := SetAllocationStatus(allocations, userId, status);
    assert forall i :: 0 <= i < |r| ==> r[i].studentId == allocations[i].studentId;
  }

  // ---------------------------------------------------------------------
  // GET /courses (:346-362)
  // ---------------------------------------------------------------------

  function EnrolledBy(userId: int): Enrolment -> bool {
    (e: Enrolment) => e.userId == userId
  }

  /** `studentCourses`: the user's enrolments. */
  function StudentCourses(enrolments: seq<Enrolment>, userId: int): seq<Enrolment> {
    Filter(enrolments, EnrolledBy(userId))
  }

  /** `allCourses`: the Active courses. */
  function ActiveCourses(courses: seq<CourseRow>): seq<CourseRow> {
    Filter(courses, (c: CourseRow) => c.status == "Active")
  }

  predicate InProgressFor(sc: seq<Enrolment>, courseId: int) {
    exists i :: 0 <= i < |sc| && sc[i].courseId == courseId && sc[i].status == "in-progress"
  }

  /** `studentCourses.find(sc => sc.course_id === id)` */
  function FindEnrolment(sc: seq<Enrolment>, courseId: int): (r: Option<Enrolment>)
    ensures r.Some? ==> r.value in sc && r.value.courseId == courseId
    ensures r.None? <==> forall i :: 0 <= i < |sc| ==> sc[i].courseId != courseId
  {
    if sc == [] then None
    else if sc[0].courseId == courseId then Some(sc[0])
    else FindEnrolment(sc[1..], courseId)
  }

  /** `inProgressCourses`: each Active course with an in-progress
      enrolment, with the progress of its first enrolment. */
  function InProgressCourses(sc: seq<Enrolment>, active: seq<CourseRow>): seq<(CourseRow, int)> {
    var picked := Filter(active, (c: CourseRow) => InProgressFor(sc, c.id));
    seq(|picked|, i requires 0 <= i < |picked| =>
      (picked[i], match FindEnrolment(sc, picked[i].id) case Some(e) => e.progress case None => 0))
  }

  /** `exploreCourses`: the Active courses the user is not enrolled in. */
  function ExploreCourses(sc: seq<Enrolment>, active: seq<CourseRow>): seq<CourseRow> {
    var ids := seq(|sc|, i requires 0 <= i < |sc| => sc[i].courseId);
    Filter(active, (c: CourseRow) => c.id !in ids)
  }

  predicate Enrolled(es: seq<Enrolment>, userId: int, courseId: int) {
    exists i :: 0 <= i < |es| && es[i].userId == userId && es[i].courseId == courseId
  }

  predicate EnrolledWith(es: seq<Enrolment>, userId: int, courseId: int, status: string) {
    exists i :: 0 <= i < |es| && es[i].userId == userId && es[i].courseId == courseId && es[i].status == status
  }

  lemma InProgressForIff(enrolments: seq<Enrolment>, userId: int, courseId: int)
    ensures InProgressFor(StudentCourses(enrolments, userId), courseId) <==> EnrolledWith(enrolments, userId, courseId, "in-progress")
  {
    var sc := StudentCourses(enrolments, userId);
    if InProgressFor(sc, courseId) {
      var i :| 0 <= i < |sc| && sc[i].courseId == courseId && sc[i].status == "in-progress";
      assert EnrolledBy(userId)(sc[i]);
      var j :| 0 <= j < |enrolments| && enrolments[j] == sc[i];
    }
    if EnrolledWith(enrolments, userId, courseId, "in-progress") {
      var j :| 0 <= j < |enrolments| && enrolments[j].userId == userId && enrolments[j].courseId == courseId &&
               enrolments[j].status == "in-progress";
      assert EnrolledBy(userId)(enrolments[j]);
      var i :| 0 <= i < |sc| && sc[i] == enrolments[j];
    }
  }

  /** A course is listed in progress exactly when it is Active and the user
      has an in-progress enrolment in it. */
  lemma InProgressListing(enrolments: seq<Enrolment>, courses: seq<CourseRow>, userId: int, c: CourseRow)
    ensures (exists p :: (c, p) in InProgressCourses(StudentCourses(enrolments, userId), ActiveCourses(courses))) <==>
            c in courses && c.status == "Active" && EnrolledWith(enrolments, userId, c.id, "in-progress")
  {
    var sc := StudentCourses(enrolments, userId);
    var active := ActiveCourses(courses);
    var r := InProgressCourses(sc, active);
    var keep := (c: CourseRow) => InProgressFor(sc, c.id);
    var picked := Filter(active, keep);
    InProgressForIff(enrolments, userId, c.id);
    if exists p :: (c, p) in r {
      var p :| (c, p) in r;
      var i :| 0 <= i < |r| && r[i] == (c, p);
      assert picked[i] == c && keep(picked[i]) && picked[i] in active;
      var j :| 0 <= j < |active| && active[j] == c;
    }
    if c in courses && c.status == "Active" && EnrolledWith(enrolments, userId, c.id, "in-progress") {
      var j :| 0 <= j < |courses| && courses[j] == c;
      assert c in active;
      var k :| 0 <= k < |active| && active[k] == c;
      assert keep(active[k]);
      var i :| 0 <= i < |picked| && picked[i] == c;
      assert r[i].0 == c;
      assert (c, r[i].1) in r;
    }
  }

  /** A course is offered to explore exactly when it is Active and the user
      has no enrolment in it. */
  lemma ExploreListing(enrolments: seq<Enrolment>, courses: seq<CourseRow>, userId: int, c: CourseRow)
    ensures c in ExploreCourses(StudentCourses(enrolments, userId), ActiveCourses(courses)) <==>
            c in courses && c.status == "Active" && !Enrolled(enrolments, userId, c.id)
  {
    var sc := StudentCourses(enrolments, userId);
    var active := ActiveCourses(courses);
    var ids := seq(|sc|, i requires 0 <= i < |sc| => sc[i].courseId);
    var keep := (c: CourseRow) => c.id !in ids;
    assert ExploreCourses(sc, active) == Filter(active, keep);
    EnrolledIds(enrolments, userId, c.id);
    ActiveMember(courses, c);
    if c in Filter(active, keep) {
      var i :| 0 <= i < |Filter(active, keep)| && Filter(active, keep)[i] == c;
    }
    if c in active && keep(c) {
      var k :| 0 <= k < |active| && active[k] == c;
    }
  }

  /** The course ids of a user's enrolments are those they are enrolled in. */
  lemma EnrolledIds(enrolments: seq<Enrolment>, userId: int, id: int)
    ensures var sc := StudentCourses(enrolments, userId);
      id in seq(|sc|, i requires 0 <= i < |sc| => sc[i].courseId) <==> Enrolled(enrolments, userId, id)
  {
    var sc := StudentCourses(enrolments, userId);
    var ids := seq(|sc|, i requires 0 <= i < |sc| => sc[i].courseId);
    if id in ids {
      var i :| 0 <= i < |ids| && ids[i] == id;
      assert EnrolledBy(userId)(sc[i]);
      var j :| 0 <= j < |enrolments| && enrolments[j] == sc[i];
    }
    if Enrolled(enrolments, userId, id) {
      var j :| 0 <= j < |enrolments| && enrolments[j].userId == userId && enrolments[j].courseId == id;
      assert EnrolledBy(userId)(enrolments[j]);
      var i :| 0 <= i < |sc| && sc[i] == enrolments[j];
      assert ids[i] == id;
    }
  }

  /** The Active courses are the courses whose status is Active. */
  lemma ActiveMember(courses: seq<CourseRow>, c: CourseRow)
    ensures c in ActiveCourses(courses) <==> c in courses && c.status == "Active"
  {
    if c in courses && c.status == "Active" {
      var j :| 0 <= j < |courses| && courses[j] == c;
    }
  }

  /** Under the unique (user_id, course_id) key, a listed course carries the
      progress of the user's enrolment in it. */
  lemma InProgressProgress(enrolments: seq<Enrolment>, courses: seq<CourseRow>, userId: int, c: CourseRow, p: int)
    requires EnrolmentKeysUnique(enrolments)
    requires (c, p) in InProgressCourses(StudentCourses(enrolments, userId), ActiveCourses(courses))
    ensures exists j :: 0 <= j < |enrolments| && enrolments[j] == Enrolment(userId, c.id, p, "in-progress")
  {
    var sc := StudentCourses(enrolments, userId);
    var active := ActiveCourses(courses);
    var r := InProgressCourses(sc, active);
    var picked := Filter(active, (c: CourseRow) => InProgressFor(sc, c.id));
    var i :| 0 <= i < |r| && r[i] == (c, p);
    assert picked[i] == c && InProgressFor(sc, c.id);
    var k :| 0 <= k < |sc| && sc[k].courseId == c.id && sc[k].status == "in-progress";
    assert FindEnrolment(sc, c.id).Some?;
    var e := FindEnrolment(sc, c.id).value;
    assert p == e.progress;
    assert EnrolledBy(userId)(e) && EnrolledBy(userId)(sc[k]);
    var a :| 0 <= a < |enrolments| && enrolments[a] == e;
    var b :| 0 <= b < |enrolments| && enrolments[b] == sc[k];
    assert a == b;
  }

  /** A completed course appears in neither list. */
  lemma CompletedInNeither(enrolments: seq<Enrolment>, courses: seq<CourseRow>, userId: int, c: CourseRow)
    requires EnrolmentKeysUnique(enrolments)
    requires EnrolledWith(enrolments, userId, c.id, "completed")
    ensures forall p :: (c, p) !in InProgressCourses(StudentCourses(enrolments, userId), ActiveCourses(courses))
    ensures c !in ExploreCourses(StudentCourses(enrolments, userId), ActiveCourses(courses))
  {
    InProgressListing(enrolments, courses, userId, c);
    ExploreListing(enrolments, courses, userId, c);
    OneStatusPerCourse(enrolments, userId, c.id, "completed", "in-progress");
  }

  /** Under the unique key a user's enrolment in a course has one status. */
  lemma OneStatusPerCourse(enrolments: seq<Enrolment>, userId: int, courseId: int, s1: string, s2: string)
    requires EnrolmentKeysUnique(enrolments)
    ensures EnrolledWith(enrolments, userId, courseId, s1) && EnrolledWith(enrolments, userId, courseId, s2) ==> s1 == s2
  {
    if EnrolledWith(enrolments, userId, courseId, s1) && EnrolledWith(enrolments, userId, courseId, s2) {
      var a :| 0 <= a < |enrolments| && enrolments[a].userId == userId && enrolments[a].courseId == courseId &&
               enrolments[a].status == s1;
      var b :| 0 <= b < |enrolments| && enrolments[b].userId == userId && enrolments[b].courseId == courseId &&
               enrolments[b].status == s2;
      assert !(a < b) && !(b < a);
    }
  }

  // ---------------------------------------------------------------------
  // POST /courses/enroll (:365-378)
  // ---------------------------------------------------------------------

  /** 201 and a new in-progress enrolment at progress 0; 400 and no change
      when the course id is missing (NOT NULL) or the user is already
      enrolled (the unique key). */
  method Enroll(db: Db, userId: int, courseId: Option<int>) returns (code: int)
    requires db.EnrolmentsValid()
    modifies db`enrolments
    ensures db.EnrolmentsValid()
    ensures var added := courseId.Some? && !Enrolled(old(db.enrolments), userId, courseId.value);
      code == (if added then 201 else 400) &&
      db.enrolments == if added then old(db.enrolments) + [Enrolment(userId, courseId.value, 0, "in-progress")]
                       else old(db.enrolments)
  {
    if courseId.None? || Enrolled(db.enrolments, userId, courseId.value) {
      return 400;
    }
    var row := Enrolment(userId, courseId.value, 0, "in-progress");
    assert forall i :: 0 <= i < |db.enrolments| ==> db.enrolments[i].userId != userId || db.enrolments[i].courseId != row.courseId;
    db.enrolments := db.enrolments + [row];
    code := 201;
  }

  /** After enrolling in an Active course, it is listed in progress at 0 and
      is no longer offered to explore. */
  lemma EnrollThenListed(enrolments: seq<Enrolment>, courses: seq<CourseRow>, userId: int, c: CourseRow)
    requires EnrolmentKeysUnique(enrolments) && !Enrolled(enrolments, userId, c.id)
    requires c in courses && c.status == "Active"
    ensures var es := enrolments + [Enrolment(userId, c.id, 0, "in-progress")];
      (c, 0) in InProgressCourses(StudentCourses(es, userId), ActiveCourses(courses)) &&
      c !in ExploreCourses(StudentCourses(es, userId), ActiveCourses(courses))
  {
    var es := enrolments + [Enrolment(userId, c.id, 0, "in-progress")];
    assert es[|enrolments|] == Enrolment(userId, c.id, 0, "in-progress");
    assert EnrolmentKeysUnique(es);
    InProgressListing(es, courses, userId, c);
    ExploreListing(es, courses, userId, c);
    var p :| (c, p) in InProgressCourses(StudentCourses(es, userId), ActiveCourses(courses));
    InProgressProgress(es, courses, userId, c, p);
    var j :| 0 <= j < |es| && es[j] == Enrolment(userId, c.id, p, "in-progress");
    assert j == |enrolments|;
  }

  // ---------------------------------------------------------------------
  // Saved items (:302-343)
  // ---------------------------------------------------------------------

  /** `saved.filter(i => i.item_type === t).map(i => i.item_id)` */
  function IdsOfType(saved: seq<SavedItem>, itemType: string): (r: seq<int>)
    ensures |r| <= |saved|
  {
    var picked := Filter(saved, (s: SavedItem) => s.itemType == itemType);
    seq(|picked|, i requires 0 <= i < |picked| => picked[i].itemId)
  }

  /** The ids of one type are exactly the ids saved under that type. */
  lemma IdsOfTypeExactly(saved: seq<SavedItem>, itemType: string, x: int)
    ensures x in IdsOfType(saved, itemType) <==>
            exists i :: 0 <= i < |saved| && saved[i].itemType == itemType && saved[i].itemId == x
  {
    var keep := (s: SavedItem) => s.itemType == itemType;
    var picked := Filter(saved, keep);
    var r := IdsOfType(saved, itemType);
    if x in r {
      var k :| 0 <= k < |r| && r[k] == x;
      assert keep(picked[k]) && picked[k] in saved;
      var i :| 0 <= i < |saved| && saved[i] == picked[k];
    }
    if exists i :: 0 <= i < |saved| && saved[i].itemType == itemType && saved[i].itemId == x {
      var i :| 0 <= i < |saved| && saved[i].itemType == itemType && saved[i].itemId == x;
      assert keep(saved[i]);
      var k :| 0 <= k < |picked| && picked[k] == saved[i];
      assert r[k] == x;
    }
  }

  /** Course ids and internship ids split the saved rows between them: the
      item_type enum admits no third kind. */
  lemma SavedIdsPartition(saved: seq<SavedItem>)
    requires forall i :: 0 <= i < |saved| ==> saved[i].itemType in {"course", "internship"}
    ensures |IdsOfType(saved, "course")| + |IdsOfType(saved, "internship")| == |saved|
  {
    FilterCount(saved, (s: SavedItem) => s.itemType == "course", (s: SavedItem) => s.itemType == "internship");
  }

  predicate ItemTypeOk(itemType: string) {
    itemType in {"course", "internship"}
  }

  /** POST /saved-items: 201 and the row appended when it is new. Any
      constraint failure answers 200 "Item already saved" with no change:
      a duplicate, but also a missing id (NOT NULL) or an unknown type (the
      item_type enum). */
  method SaveItem(db: Db, userId: int, itemId: Option<int>, itemType: Option<string>) returns (code: int)
    requires db.SavedItemsValid()
    modifies db`savedItems
    ensures db.SavedItemsValid()
    ensures var added := itemId.Some? && itemType.Some? && ItemTypeOk(itemType.value) &&
                         SavedItem(userId, itemId.value, itemType.value) !in old(db.savedItems);
      code == (if added then 201 else 200) &&
      db.savedItems == if added then old(db.savedItems) + [SavedItem(userId, itemId.value, itemType.value)]
                       else old(db.savedItems)
  {
    if itemId.None? || itemType.None? || !ItemTypeOk(itemType.value) {
      return 200;
    }
    var row := SavedItem(userId, itemId.value, itemType.value);
    if row in db.savedItems {
      return 200;
    }
    db.savedItems := db.savedItems + [row];
    code := 201;
  }

  function Other(item: SavedItem): SavedItem -> bool {
    (x: SavedItem) => x != item
  }

  /** DELETE /saved-items: every row with that user, id and type goes. */
  method RemoveItem(db: Db, userId: int, itemId: int, itemType: string)
    requires db.SavedItemsValid()
    modifies db`savedItems
    ensures db.SavedItemsValid()
    ensures db.savedItems == Filter(old(db.savedItems), Other(SavedItem(userId, itemId, itemType)))
    ensures SavedItem(userId, itemId, itemType) !in db.savedItems
  {
    FilterPairwise(db.savedItems, Other(SavedItem(userId, itemId, itemType)), (a: SavedItem, b: SavedItem) => a != b);
    db.savedItems := Filter(db.savedItems, Other(SavedItem(userId, itemId, itemType)));
  }

  /** Removing an item right after saving it gives back the table as it
      was. */
  lemma SaveThenRemove(saved: seq<SavedItem>, item: SavedItem)
    requires item !in saved
    ensures Filter(saved + [item], Other(item)) == saved
  {
    FilterAppend(saved, [item], Other(item));
    FilterKeepsAll(saved, Other(item));
    assert Filter([item], Other(item)) == [];
    assert saved + [] == saved;
  }

  // ---------------------------------------------------------------------
  // Applications (:446-480)
  // ---------------------------------------------------------------------

  /** POST /applications: a truthy status is upserted under (user,
      internship), a falsy one deletes the entry; a status outside the enum
      is refused with 500 and no change. */
  method SetApplication(db: Db, userId: int, internshipId: int, status: Option<string>) returns (code: int)
    requires db.ApplicationsValid()
    modifies db`applications
    ensures db.ApplicationsValid()
    ensures code == (if Truthy(status) && !ApplicationStatusOk(status.value) then 500 else 200)
    ensures db.applications ==
      if !Truthy(status) then old(db.applications) - {(userId, internshipId)}
      else if ApplicationStatusOk(status.value) then old(db.applications)[(userId, internshipId) := status.value]
      else old(db.applications)
  {
    if Truthy(status) {
      if !ApplicationStatusOk(status.value) {
        return 500;
      }
      db.applications := db.applications[(userId, internshipId) := status.value];
    } else {
      db.applications := db.applications - {(userId, internshipId)};
    }
    code := 200;
  }

  /** GET /applications: the user's statuses by internship. */
  function ApplicationsOf(apps: map<(int, int), string>, userId: int): (r: map<int, string>)
    ensures forall iid :: iid in r <==> (userId, iid) in apps
    ensures forall iid :: iid in r ==> r[iid] == apps[(userId, iid)]
  {
    var ids := set k | k in apps.Keys && k.0 == userId :: k.1;
    assert forall iid :: iid in ids <==> (userId, iid) in apps by {
      forall iid | (userId, iid) in apps
        ensures iid in ids
      {
        var k := (userId, iid);
        assert k in apps.Keys && k.0 == userId;
      }
    }
    map iid | iid in ids :: apps[(userId, iid)]
  }

  /** Setting a status is a map update of the user's view; other users'
      views do not change. */
  lemma ApplicationsAfterSet(apps: map<(int, int), string>, userId: int, internshipId: int, status: string, other: int)
    ensures ApplicationsOf(apps[(userId, internshipId) := status], userId) == ApplicationsOf(apps, userId)[internshipId := status]
    ensures other != userId ==> ApplicationsOf(apps[(userId, internshipId) := status], other) == ApplicationsOf(apps, other)
  {
    var after := apps[(userId, internshipId) := status];
    var a, b := ApplicationsOf(after, userId), ApplicationsOf(apps, userId)[internshipId := status];
    assert a.Keys == b.Keys;
    assert forall iid :: iid in a ==> a[iid] == b[iid];
    if other != userId {
      var c, d := ApplicationsOf(after, other), ApplicationsOf(apps, other);
      assert c.Keys == d.Keys;
      assert forall iid :: iid in c ==> c[iid] == d[iid];
    }
  }

  /** Clearing a status removes it from the user's view; other users'
      views do not change. */
  lemma ApplicationsAfterClear(apps: map<(int, int), string>, userId: int, internshipId: int, other: int)
    ensures ApplicationsOf(apps - {(userId, internshipId)}, userId) == ApplicationsOf(apps, userId) - {internshipId}
    ensures other != userId ==> ApplicationsOf(apps - {(userId, internshipId)}, other) == ApplicationsOf(apps, other)
  {
    var after := apps - {(userId, internshipId)};
    var a, b := ApplicationsOf(after, userId), ApplicationsOf(apps, userId) - {internshipId};
    assert a.Keys == b.Keys;
    assert forall iid :: iid in a ==> a[iid] == b[iid];
    if other != userId {
      var c, d := ApplicationsOf(after, other), ApplicationsOf(apps, other);
      assert c.Keys == d.Keys;
      assert forall iid :: iid in c ==> c[iid] == d[iid];
    }
  }
}
