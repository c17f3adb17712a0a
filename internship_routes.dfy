// backend/routes/internships.js: list with the skills column parsed, create
// with validation and defaults, and the status update. The router is not
// mounted by backend/server.js, but the admin router repeats its status
// update and a variant of its create handler, which reuse what is defined
// here.

module InternshipRoutes {
  import opened Common
  import opened Json
  import opened Database

  /** The fields a create request may carry; None is an absent or null
      field. */
  datatype InternshipBody = InternshipBody(
    title: Option<string>,
    organization: Option<string>,
    location: Option<string>,
    description: Option<string>,
    skills: Option<JsonVal>,
    status: Option<string>,
    kind: Option<string>,
    experienceLevel: Option<string>)

  /** `x || fallback` on a text field. */
  function OrElse(x: Option<string>, fallback: string): (r: string)
    ensures Truthy(x) ==> r == x.value
    ensures !Truthy(x) ==> r == fallback
  {
    if Truthy(x) then x.value else fallback
  }

  /** `!title || !organization || !description` is false. */
  predicate HasRequiredFields(b: InternshipBody) {
    Truthy(b.title) && Truthy(b.organization) && Truthy(b.description)
  }

  /** `skills || []` */
  function SkillsOrEmpty(skills: Option<JsonVal>): JsonVal {
    if skills.Some? && JsonTruthy(skills.value) then skills.value else JStrs([])
  }

  /** The row the create handler inserts, with the id the table assigns. */
  function NewInternship(b: InternshipBody, id: int): InternshipRow
    requires HasRequiredFields(b)
  {
    InternshipRow(id, b.title.value, b.organization.value, OrElse(b.location, ""), b.description.value,
                  Some(Stringify(SkillsOrEmpty(b.skills))),
                  OrElse(b.status, "Active"), OrElse(b.kind, "On-site"), OrElse(b.experienceLevel, "Entry-level"))
  }

  /** Omitted optional fields take their defaults, which the column enums
      accept. */
  lemma NewInternshipDefaults(b: InternshipBody, id: int)
    requires HasRequiredFields(b)
    requires b.location.None? && b.skills.None? && b.status.None? && b.kind.None? && b.experienceLevel.None?
    ensures var r := NewInternship(b, id);
      r.location == "" && r.skills == Some("[]") && r.status == "Active" &&
      r.kind == "On-site" && r.experienceLevel == "Entry-level" && InternshipEnumsOk(r)
  {
  }

  /** POST /: 400 and no insert without a title, organization and
      description; 500 and no insert when a status, type or experience
      level outside its column's enum reaches the insert; else the row is
      appended under the next id. */
  method Create(db: Db, b: InternshipBody) returns (code: int)
    requires db.InternshipsValid()
    modifies db`internships, db`nextInternshipId
    ensures db.InternshipsValid()
    ensures code in {201, 400, 500}
    ensures code == 400 <==> !HasRequiredFields(b)
    ensures code == 500 <==> HasRequiredFields(b) && !InternshipEnumsOk(NewInternship(b, old(db.nextInternshipId)))
    ensures code != 201 ==> db.internships == old(db.internships) && db.nextInternshipId == old(db.nextInternshipId)
    ensures code == 201 ==> db.internships == old(db.internships) + [NewInternship(b, old(db.nextInternshipId))] &&
                            db.nextInternshipId == old(db.nextInternshipId) + 1
  {
    if !Truthy(b.title) || !Truthy(b.organization) || !Truthy(b.description) {
      return 400;
    }
    var row := NewInternship(b, db.nextInternshipId);
    if !InternshipEnumsOk(row) {
      return 500;
    }
    db.internships := db.internships + [row];
    db.nextInternshipId := db.nextInternshipId + 1;
    code := 201;
  }

  /** `['Active', 'Closed'].includes(status)` */
  predicate StatusAccepted(status: Option<string>) {
    status.Some? && status.value in {"Active", "Closed"}
  }

  /** An accepted status is one the status column allows. */
  lemma StatusAcceptedFitsColumn(r: InternshipRow, status: Option<string>)
    requires InternshipEnumsOk(r) && StatusAccepted(status)
    ensures InternshipEnumsOk(r.(status := status.value))
  {
  }

  /** PUT /:id/status: 400 with no change for any other status; otherwise
      the internship with that id takes it. */
  method UpdateStatus(db: Db, id: int, status: Option<string>) returns (code: int)
    requires db.InternshipsValid()
    modifies db`internships
    ensures db.InternshipsValid()
    ensures code == (if StatusAccepted(status) then 200 else 400)
    ensures db.internships == if StatusAccepted(status) then SetInternshipStatus(old(db.internships), id, status.value)
                              else old(db.internships)
  {
    if !StatusAccepted(status) {
      return 400;
    }
    db.internships := SetInternshipStatus(db.internships, id, status.value);
    code := 200;
  }

  /** `i.skills ? JSON.parse(i.skills) : []`, with [] when the parse throws. */
  function SkillsView(r: InternshipRow): JsonVal {
    if !Truthy(r.skills) then JStrs([])
    else match ParseJson(r.skills.value)
      case None => JStrs([])
      case Some(v) => v
  }

  /** An empty or NULL column, or a text not in the layout `JSON.stringify`
      writes, lists as []. */
  lemma SkillsViewFallback(r: InternshipRow)
    requires r.skills == None || r.skills == Some("") || ParseJson(r.skills.value).None?
    ensures SkillsView(r) == JStrs([])
  {
  }

  /** Listing a created internship gives back the skills it was created
      with, or [] when they were falsy. */
  lemma CreateThenList(b: InternshipBody, id: int)
    requires HasRequiredFields(b)
    ensures SkillsView(NewInternship(b, id)) == SkillsOrEmpty(b.skills)
  {
    JsonRoundTrip(SkillsOrEmpty(b.skills));
  }
}
