/** The job-seeker handlers of `jobseeker.controller.ts`: reading and
    upserting the caller's profile with wholesale replacement of its skill,
    experience and education lists, the job search filter with its
    `salaryRange` and `skills` parsing, the one-application-per-job rule,
    the caller's application list, and the preferences upsert. The caller
    is the user the authentication gate attached; its id is a parameter. */
module Jobseeker {
  import opened Common
  import opened Json
  import opened Strings
  import opened Store
  import opened Pagination

  const ProfileNotFound := AppError("Profile not found", 404)
  const JobNotFound := AppError("Job not found", 404)
  const AlreadyApplied := AppError("You have already applied for this job", 400)

  /** The scalar columns `updateProfile` writes. */
  const ProfileColumns := {"firstName", "lastName", "phone", "location", "bio"}

  /** The columns `updateJobPreferences` writes. */
  const PreferenceColumns := {"jobTypes", "locations", "experienceLevels", "salaryRange", "skills", "notificationFrequency"}

  /** `getProfile`. */
  function GetProfile(profiles: map<nat, SeekerProfile>, userId: nat): (r: Response<SeekerProfile>)
    ensures userId !in profiles <==> r == Forward(ProfileNotFound)
    ensures userId in profiles ==> r == Respond(200, profiles[userId])
  {
    if userId in profiles then Respond(200, profiles[userId]) else Forward(ProfileNotFound)
  }

  /** `getJobDetails`. */
  function GetJobDetails(jobs: map<nat, Job>, id: nat): (r: Response<Job>)
    ensures id !in jobs <==> r == Forward(JobNotFound)
    ensures id in jobs ==> r == Respond(200, jobs[id])
  {
    if id in jobs then Respond(200, jobs[id]) else Forward(JobNotFound)
  }

  // ---- updateProfile ----

  /** What `if (list) { deleteMany; createMany(list.map(...)) }` does with a
      body field: nothing when it is falsy; replace the rows with the array's
      elements, in order, when it is an array; any other truthy value has no
      `map` and throws a TypeError, after `deleteMany` has already removed
      the old rows. */
  datatype ListUpdate = Keep | Replace(items: seq<Value>) | Throw

  function ListUpdateOf(v: Option<Value>): (r: ListUpdate)
    ensures r == Keep <==> !Truthy(v)
    ensures r.Replace? <==> v.Some? && v.value.Arr?
    ensures r.Replace? ==> r.items == v.value.items
  {
    if !Truthy(v) then Keep
    else if v.value.Arr? then Replace(v.value.items)
    else Throw
  }

  /** The profile row after the `upsert`: the listed columns the body
      carries are written over the existing row, or into a new row with no
      child rows. */
  function Upserted(profiles: map<nat, SeekerProfile>, userId: nat, body: map<string, Value>): (p: SeekerProfile)
    ensures p.userId == (if userId in profiles then profiles[userId].userId else userId)
    ensures userId in profiles ==>
      && p.columns == Merge(profiles[userId].columns, body, ProfileColumns)
      && p.skills == profiles[userId].skills && p.experience == profiles[userId].experience
      && p.education == profiles[userId].education
    ensures userId !in profiles ==>
      p == SeekerProfile(userId, Merge(map[], body, ProfileColumns), [], [], [])
  {
    if userId in profiles then profiles[userId].(columns := Merge(profiles[userId].columns, body, ProfileColumns))
    else SeekerProfile(userId, Merge(map[], body, ProfileColumns), [], [], [])
  }

  /** The row after the skills, experience and education steps, in that
      order, applied to the upserted row `p0`: a supplied array replaces
      its list; a step that throws has emptied its list and stops the
      sequence, with the earlier steps already written. */
  function ListsApplied(p0: SeekerProfile, body: map<string, Value>): (p: SeekerProfile)
    ensures p.userId == p0.userId && p.columns == p0.columns
  {
    var s := ListUpdateOf(Get(body, "skills"));
    var e := ListUpdateOf(Get(body, "experience"));
    var d := ListUpdateOf(Get(body, "education"));
    var p1 := if s.Replace? then p0.(skills := s.items) else p0;
    var p2 := if e.Replace? then p1.(experience := e.items) else p1;
    var p3 := if d.Replace? then p2.(education := d.items) else p2;
    if s.Throw? then p0.(skills := [])
    else if e.Throw? then p1.(experience := [])
    else if d.Throw? then p2.(education := [])
    else p3
  }

  /** Replaying the list steps on their own result changes nothing. */
  lemma ListsAppliedFixed(p0: SeekerProfile, body: map<string, Value>)
    ensures ListsApplied(ListsApplied(p0, body), body) == ListsApplied(p0, body)
  {
    var s := ListUpdateOf(Get(body, "skills"));
    var e := ListUpdateOf(Get(body, "experience"));
    var d := ListUpdateOf(Get(body, "education"));
    var q := ListsApplied(p0, body);
    assert s.Replace? ==> q.skills == s.items;
    assert !s.Throw? && e.Replace? ==> q.experience == e.items;
    assert !s.Throw? && !e.Throw? && d.Replace? ==> q.education == d.items;
  }

  /** The profile row as `upsert` returns it without an `include`: the
      scalar columns only, no child rows. */
  datatype ProfileRow = ProfileRow(userId: nat, columns: map<string, Value>)

  /** The profile table and the response after `updateProfile`: the upsert
      persists first, then the list steps; the response carries the row as
      the upsert returned it. */
  function UpdateProfileResult(profiles: map<nat, SeekerProfile>, userId: nat, body: map<string, Value>)
    : (r: (map<nat, SeekerProfile>, Response<ProfileRow>))
    ensures r.0.Keys == profiles.Keys + {userId}
    ensures forall id :: id in profiles && id != userId ==> r.0[id] == profiles[id]
    ensures r.0[userId] == ListsApplied(Upserted(profiles, userId, body), body)
    ensures r.1.Respond? <==>
      && ListUpdateOf(Get(body, "skills")) != Throw
      && ListUpdateOf(Get(body, "experience")) != Throw
      && ListUpdateOf(Get(body, "education")) != Throw
    ensures r.1.Forward? ==> r.1.error == TypeError
    ensures r.1.Respond? ==>
      r.1 == Respond(200, ProfileRow(r.0[userId].userId, Merge(if userId in profiles then profiles[userId].columns else map[], body, ProfileColumns)))
  {
    var p0 := Upserted(profiles, userId, body);
    var ok := ListUpdateOf(Get(body, "skills")) != Throw && ListUpdateOf(Get(body, "experience")) != Throw
              && ListUpdateOf(Get(body, "education")) != Throw;
    (profiles[userId := ListsApplied(p0, body)], if ok then Respond(200, ProfileRow(p0.userId, p0.columns)) else Forward(TypeError))
  }

  /** `updateProfile`. The upsert and the list steps each rewrite the
      caller's row in turn; the row is kept in a local and written back
      when the handler stops, at a thrown step or after the last one. */
  method UpdateProfile(db: Db, userId: nat, body: map<string, Value>) returns (res: Response<ProfileRow>)
    requires db.Valid()
    modifies db`profiles
    ensures db.Valid()
    ensures (db.profiles, res) == UpdateProfileResult(old(db.profiles), userId, body)
  {
    var profile := Upserted(db.profiles, userId, body);
    var skills := ListUpdateOf(Get(body, "skills"));
    if skills.Throw? {
      db.profiles := db.profiles[userId := profile.(skills := [])];
      return Forward(TypeError);
    }
    var row := if skills.Replace? then profile.(skills := skills.items) else profile;
    var experience := ListUpdateOf(Get(body, "experience"));
    if experience.Throw? {
      db.profiles := db.profiles[userId := row.(experience := [])];
      return Forward(TypeError);
    }
    row := if experience.Replace? then row.(experience := experience.items) else row;
    var education := ListUpdateOf(Get(body, "education"));
    if education.Throw? {
      db.profiles := db.profiles[userId := row.(education := [])];
      return Forward(TypeError);
    }
    row := if education.Replace? then row.(education := education.items) else row;
    db.profiles := db.profiles[userId := row];
    res := Respond(200, ProfileRow(profile.userId, profile.columns));
  }

  /** The profile is created when absent and kept otherwise, even when a
      later step throws, and no other user's profile changes. */
  lemma UpdateProfileUpserts(profiles: map<nat, SeekerProfile>, userId: nat, body: map<string, Value>)
    ensures var after := UpdateProfileResult(profiles, userId, body).0;
      && after.Keys == profiles.Keys + {userId}
      && (forall id :: id in profiles && id != userId ==> after[id] == profiles[id])
      && after[userId].columns == Merge(if userId in profiles then profiles[userId].columns else map[], body, ProfileColumns)
  {
  }

  /** A list the body omits (or leaves falsy) keeps its rows; a list the
      body supplies as an array replaces them wholesale, unless an earlier
      step threw. */
  lemma UpdateProfileLists(profiles: map<nat, SeekerProfile>, userId: nat, body: map<string, Value>)
    ensures var after := UpdateProfileResult(profiles, userId, body).0[userId];
      var before := Upserted(profiles, userId, body);
      && (!Truthy(Get(body, "skills")) ==> after.skills == before.skills)
      && (!Truthy(Get(body, "experience")) ==> after.experience == before.experience)
      && (!Truthy(Get(body, "education")) ==> after.education == before.education)
      && (Get(body, "skills").Some? && Get(body, "skills").value.Arr? ==> after.skills == body["skills"].items)
      && ((ListUpdateOf(Get(body, "skills")) != Throw && Get(body, "experience").Some? && Get(body, "experience").value.Arr?)
            ==> after.experience == body["experience"].items)
      && ((ListUpdateOf(Get(body, "skills")) != Throw && ListUpdateOf(Get(body, "experience")) != Throw
           && Get(body, "education").Some? && Get(body, "education").value.Arr?)
            ==> after.education == body["education"].items)
  {
  }

  /** A truthy list that is not an array is emptied before the TypeError,
      unless an earlier step already threw. */
  lemma ThrownListEmptied(profiles: map<nat, SeekerProfile>, userId: nat, body: map<string, Value>)
    ensures var (after, res) := UpdateProfileResult(profiles, userId, body);
      && (ListUpdateOf(Get(body, "skills")) == Throw ==> after[userId].skills == [] && res == Forward(TypeError))
      && (ListUpdateOf(Get(body, "skills")) != Throw && ListUpdateOf(Get(body, "experience")) == Throw ==>
            after[userId].experience == [] && res == Forward(TypeError))
      && (ListUpdateOf(Get(body, "skills")) != Throw && ListUpdateOf(Get(body, "experience")) != Throw
          && ListUpdateOf(Get(body, "education")) == Throw ==>
            after[userId].education == [] && res == Forward(TypeError))
  {
  }

  /** The request succeeds exactly when no supplied list is a truthy
      non-array. */
  lemma UpdateProfileSucceeds(profiles: map<nat, SeekerProfile>, userId: nat, body: map<string, Value>)
    ensures UpdateProfileResult(profiles, userId, body).1.Respond? <==>
      && ListUpdateOf(Get(body, "skills")) != Throw
      && ListUpdateOf(Get(body, "experience")) != Throw
      && ListUpdateOf(Get(body, "education")) != Throw
    ensures UpdateProfileResult(profiles, userId, body).1.Forward? ==> UpdateProfileResult(profiles, userId, body).1.error == TypeError
  {
  }

  /** Sending the same profile update twice leaves the table as the first
      did. */
  lemma UpdateProfileIdempotent(profiles: map<nat, SeekerProfile>, userId: nat, body: map<string, Value>)
    ensures var once := UpdateProfileResult(profiles, userId, body).0;
      UpdateProfileResult(once, userId, body).0 == once
  {
    var p0 := Upserted(profiles, userId, body);
    var q := ListsApplied(p0, body);
    var once := profiles[userId := q];
    var cur := if userId in profiles then profiles[userId].columns else map[];
    MergeIdempotent(cur, body, ProfileColumns);
    assert Upserted(once, userId, body) == q;
    ListsAppliedFixed(p0, body);
  }

  // ---- searchJobs ----

  /** The query string of `searchJobs`; each value is a single string when
      present, and `page`/`limit` are already numbers. */
  datatype SearchQuery = SearchQuery(
    title: Option<string>,
    location: Option<string>,
    jobType: Option<string>,
    experienceLevel: Option<string>,
    salaryRange: Option<string>,
    skills: Option<string>,
    page: Option<nat>,
    limit: Option<nat>)

  /** `{ min: { gte }, max: { lte } }`; `maxAtMost` is `None` when the range
      has no `-` (the bound is `undefined` and Prisma drops it). */
  datatype SalaryFilter = SalaryFilter(minAtLeast: JsNumber, maxAtMost: Option<JsNumber>)

  /** The `where` object of `searchJobs`; `None` is a criterion not added. */
  datatype SearchFilter = SearchFilter(
    status: string,
    titleContains: Option<string>,
    locationContains: Option<string>,
    jobType: Option<string>,
    experienceLevel: Option<string>,
    salary: Option<SalaryFilter>,
    skillsAnyOf: Option<seq<string>>)

  /** A query value is supplied when it is a non-empty string. */
  predicate Supplied(v: Option<string>) {
    v.Some? && v.value != ""
  }

  function IfSupplied(v: Option<string>): (r: Option<string>)
    ensures r.Some? <==> Supplied(v)
    ensures r.Some? ==> r.value == v.value
  {
    if Supplied(v) then v else None
  }

  /** `salaryRange.split('-').map(Number)`, destructured as `[min, max]`. */
  function SalaryFilterOf(range: string): (f: SalaryFilter)
    ensures var parts := Split(range, '-');
      && f.minAtLeast == NumberOf(parts[0])
      && (f.maxAtMost.Some? <==> |parts| >= 2)
      && (|parts| >= 2 ==> f.maxAtMost.value == NumberOf(parts[1]))
  {
    var parts := Split(range, '-');
    SalaryFilter(NumberOf(parts[0]), if |parts| >= 2 then Some(NumberOf(parts[1])) else None)
  }

  function SearchFilterOf(q: SearchQuery): (f: SearchFilter)
    ensures f.status == "ACTIVE"
    ensures f.titleContains.Some? <==> Supplied(q.title)
    ensures f.titleContains.Some? ==> f.titleContains.value == q.title.value
    ensures f.locationContains.Some? <==> Supplied(q.location)
    ensures f.locationContains.Some? ==> f.locationContains.value == q.location.value
    ensures f.jobType.Some? <==> Supplied(q.jobType)
    ensures f.jobType.Some? ==> f.jobType.value == q.jobType.value
    ensures f.experienceLevel.Some? <==> Supplied(q.experienceLevel)
    ensures f.experienceLevel.Some? ==> f.experienceLevel.value == q.experienceLevel.value
    ensures f.salary.Some? <==> Supplied(q.salaryRange)
    ensures f.salary.Some? ==> f.salary.value == SalaryFilterOf(q.salaryRange.value)
    ensures f.skillsAnyOf.Some? <==> Supplied(q.skills)
    ensures f.skillsAnyOf.Some? ==>
      && Join(f.skillsAnyOf.value, ',') == q.skills.value
      && forall i :: 0 <= i < |f.skillsAnyOf.value| ==> ',' !in f.skillsAnyOf.value[i]
  {
    JoinSplit(if q.skills.Some? then q.skills.value else "", ',');
    SearchFilter(
      "ACTIVE",
      IfSupplied(q.title),
      IfSupplied(q.location),
      IfSupplied(q.jobType),
      IfSupplied(q.experienceLevel),
      if Supplied(q.salaryRange) then Some(SalaryFilterOf(q.salaryRange.value)) else None,
      if Supplied(q.skills) then Some(Split(q.skills.value, ',')) else None)
  }

  /** How the database reads a job's searched text columns: Prisma's
      case-insensitive `contains`. */
  datatype SearchEnv = SearchEnv(containsInsensitive: (string, string) -> bool)

  predicate ColumnIs(j: Job, column: string, value: string) {
    column in j.columns && j.columns[column] == Str(value)
  }

  predicate ColumnContains(j: Job, column: string, text: string, env: SearchEnv) {
    column in j.columns && j.columns[column].Str? && env.containsInsensitive(j.columns[column].s, text)
  }

  predicate AtLeast(v: Value, bound: JsNumber) {
    bound.Finite? && v.Num? && v.n >= bound.value
  }

  predicate AtMost(v: Value, bound: JsNumber) {
    bound.Finite? && v.Num? && v.n <= bound.value
  }

  /** A `NaN` bound matches no job. */
  predicate SalaryMatches(j: Job, f: SalaryFilter)
    ensures SalaryMatches(j, f) ==> f.minAtLeast.Finite?
    ensures f.maxAtMost == Some(NaN) ==> !SalaryMatches(j, f)
    ensures SalaryMatches(j, f) ==>
      && "salaryRange" in j.columns && j.columns["salaryRange"].Obj?
      && "min" in j.columns["salaryRange"].fields && j.columns["salaryRange"].fields["min"].Num?
      && j.columns["salaryRange"].fields["min"].n >= f.minAtLeast.value
  {
    && "salaryRange" in j.columns && j.columns["salaryRange"].Obj?
    && var range := j.columns["salaryRange"].fields;
    && "min" in range && AtLeast(range["min"], f.minAtLeast)
    && (f.maxAtMost.Some? ==> "max" in range && AtMost(range["max"], f.maxAtMost.value))
  }

  /** Whether the database selects the job for a filter. The skills
      criterion never reaches the database (see `SearchJobs`). */
  predicate Selects(f: SearchFilter, j: Job, env: SearchEnv)
    ensures Selects(f, j, env) ==> ColumnIs(j, "status", f.status)
    ensures Selects(f, j, env) && f.salary.Some? ==> f.salary.value.minAtLeast.Finite?
    ensures f.titleContains.None? && f.locationContains.None? && f.jobType.None? && f.experienceLevel.None? && f.salary.None? ==>
      (Selects(f, j, env) <==> ColumnIs(j, "status", f.status))
  {
    && ColumnIs(j, "status", f.status)
    && (f.titleContains.Some? ==> ColumnContains(j, "title", f.titleContains.value, env))
    && (f.locationContains.Some? ==> ColumnContains(j, "location", f.locationContains.value, env))
    && (f.jobType.Some? ==> ColumnIs(j, "jobType", f.jobType.value))
    && (f.experienceLevel.Some? ==> ColumnIs(j, "experienceLevel", f.experienceLevel.value))
    && (f.salary.Some? ==> SalaryMatches(j, f.salary.value))
  }

  /** `searchJobs` over the jobs in `createdAt`-descending order.
      `requiredSkills` is a relation (the recruiter routes write it with a
      nested `create` and read it with `include`), and `hasSome` is a filter
      for scalar lists only, so Prisma refuses every `where` that carries
      the skills criterion, as it refuses the negative `skip` of page 0. */
  function SearchJobs(jobs: seq<Job>, q: SearchQuery, env: SearchEnv): (r: Response<Listing<Job>>)
    ensures r.Forward? <==> Supplied(q.skills) || (q.page == Some(0) && OrDefault(q.limit, DefaultLimit) > 0)
    ensures r.Forward? ==> r.error == PrismaValidation
    ensures r.Respond? ==> forall i :: 0 <= i < |r.body.rows| ==>
      r.body.rows[i] in jobs && ColumnIs(r.body.rows[i], "status", "ACTIVE")
      && Selects(SearchFilterOf(q), r.body.rows[i], env)
    ensures r.Respond? ==>
      var matching := Where(jobs, (j: Job) => Selects(SearchFilterOf(q), j, env));
      && Fetch(matching, WindowOf(q.page, q.limit)) == Some(r.body.rows)
      && r.body.pagination == PageInfoOf(|matching|, q.page, q.limit)
  {
    var f := SearchFilterOf(q);
    NegativeSkip(q.page, q.limit);
    if Supplied(q.skills) then Forward(PrismaValidation)
    else Paginate(jobs, (j: Job) => Selects(f, j, env), q.page, q.limit)
  }

  /** The filter always requires ACTIVE, and a criterion is added exactly
      when its query value is supplied. */
  lemma SearchFilterCriteria(q: SearchQuery)
    ensures SearchFilterOf(q).status == "ACTIVE"
    ensures SearchFilterOf(q).titleContains.Some? <==> Supplied(q.title)
    ensures SearchFilterOf(q).locationContains.Some? <==> Supplied(q.location)
    ensures SearchFilterOf(q).jobType.Some? <==> Supplied(q.jobType)
    ensures SearchFilterOf(q).experienceLevel.Some? <==> Supplied(q.experienceLevel)
    ensures SearchFilterOf(q).salary.Some? <==> Supplied(q.salaryRange)
    ensures SearchFilterOf(q).skillsAnyOf.Some? <==> Supplied(q.skills)
  {
  }

  /** With no criteria, a job is selected exactly when it is ACTIVE. */
  lemma EmptySearchSelectsActive(page: Option<nat>, limit: Option<nat>, j: Job, env: SearchEnv)
    ensures Selects(SearchFilterOf(SearchQuery(None, None, None, None, None, None, page, limit)), j, env)
      <==> ColumnIs(j, "status", "ACTIVE")
  {
  }

  /** `"a-b"` bounds the minimum salary below by `a` and the maximum above
      by `b`. */
  lemma SalaryRangeBounds(a: nat, b: nat)
    ensures SalaryFilterOf(NatToDecimal(a) + "-" + NatToDecimal(b)) == SalaryFilter(Finite(a), Some(Finite(b)))
  {
    var da, db := NatToDecimal(a), NatToDecimal(b);
    assert forall k :: 0 <= k < |da| ==> IsDigit(da[k]);
    assert forall k :: 0 <= k < |db| ==> IsDigit(db[k]);
    assert '-' !in da && '-' !in db;
    var parts := [da, db];
    assert Join(parts, '-') == da + "-" + db;
    SplitJoin(parts, '-');
    DecimalRoundTrip(a);
    DecimalRoundTrip(b);
  }

  /** A single number bounds only the minimum. */
  lemma SalaryRangeLowerOnly(a: nat)
    ensures SalaryFilterOf(NatToDecimal(a)) == SalaryFilter(Finite(a), None)
  {
    var da := NatToDecimal(a);
    assert forall k :: 0 <= k < |da| ==> IsDigit(da[k]);
    assert '-' !in da;
    DecimalRoundTrip(a);
  }

  /** `"x,y"` gives back the listed skills in order, and the list always
      joins back to the query text. */
  lemma SkillsListSplit(skills: seq<string>, q: SearchQuery)
    requires |skills| >= 1 && skills[0] != ""
    requires forall i :: 0 <= i < |skills| ==> ',' !in skills[i]
    requires q.skills == Some(Join(skills, ','))
    ensures SearchFilterOf(q).skillsAnyOf == Some(skills)
  {
    assert Join(skills, ',') != "" by {
      if |skills| > 1 {
        assert Join(skills, ',')[0] == skills[0][0];
      }
    }
    SplitJoin(skills, ',');
  }

  lemma SkillsListJoins(q: SearchQuery)
    requires Supplied(q.skills)
    ensures Join(SearchFilterOf(q).skillsAnyOf.value, ',') == q.skills.value
  {
    JoinSplit(q.skills.value, ',');
  }

  // ---- applyForJob ----

  predicate HasApplied(applications: map<nat, Application>, jobId: nat, seekerId: nat)
    ensures applications == map[] ==> !HasApplied(applications, jobId, seekerId)
    ensures forall id :: id in applications && applications[id].jobId == jobId && applications[id].jobSeekerId == seekerId ==>
      HasApplied(applications, jobId, seekerId)
  {
    exists id :: id in applications && applications[id].jobId == jobId && applications[id].jobSeekerId == seekerId
  }

  /** At most one application per (job, seeker) pair. */
  ghost predicate OnePerPair(applications: map<nat, Application>) {
    forall a, b ::
      (a in applications && b in applications
       && applications[a].jobId == applications[b].jobId
       && applications[a].jobSeekerId == applications[b].jobSeekerId) ==> a == b
  }

  /** Adding one application at a fresh id adds exactly its own pair to
      those that have applied. */
  lemma AppliedAfterInsert(applications: map<nat, Application>, id: nat, a: Application, jobId: nat, seekerId: nat)
    requires id !in applications
    ensures HasApplied(applications[id := a], jobId, seekerId) <==>
      HasApplied(applications, jobId, seekerId) || (a.jobId == jobId && a.jobSeekerId == seekerId)
  {
    var after := applications[id := a];
    if HasApplied(after, jobId, seekerId) && !(a.jobId == jobId && a.jobSeekerId == seekerId) {
      var w :| w in after && after[w].jobId == jobId && after[w].jobSeekerId == seekerId;
      assert w != id && applications[w] == after[w];
    }
    if HasApplied(applications, jobId, seekerId) {
      var w :| w in applications && applications[w].jobId == jobId && applications[w].jobSeekerId == seekerId;
      assert w in after && after[w] == applications[w];
    }
    if a.jobId == jobId && a.jobSeekerId == seekerId {
      assert id in after && after[id] == a;
    }
  }

  /** `applyForJob`. The job id comes from the body; Prisma rejects a
      missing or non-numeric id, and a negative one finds no job. */
  method ApplyForJob(db: Db, seekerId: nat, body: map<string, Value>) returns (res: Response<Application>)
    requires db.Valid()
    modifies db`applications, db`nextApplicationId
    ensures db.Valid()
    ensures OnePerPair(old(db.applications)) ==> OnePerPair(db.applications)
    ensures !(Get(body, "jobId").Some? && Get(body, "jobId").value.Num?) ==>
      res == Forward(PrismaValidation) && db.applications == old(db.applications)
    ensures Get(body, "jobId").Some? && Get(body, "jobId").value.Num? ==>
      var n := body["jobId"].n;
      && (!(n >= 0 && n in db.jobs) ==> res == Forward(JobNotFound) && db.applications == old(db.applications))
      && (n >= 0 && n in db.jobs && HasApplied(old(db.applications), n, seekerId) ==>
            res == Forward(AlreadyApplied) && db.applications == old(db.applications))
      && (n >= 0 && n in db.jobs && !HasApplied(old(db.applications), n, seekerId) ==>
            var a := Application(old(db.nextApplicationId), n, seekerId, Get(body, "coverLetter"), "PENDING");
            && a.id !in old(db.applications)
            && db.applications == old(db.applications)[a.id := a]
            && res == Respond(201, a))
  {
    var jobId := Get(body, "jobId");
    if !(jobId.Some? && jobId.value.Num?) {
      return Forward(PrismaValidation);
    }
    var n := jobId.value.n;
    if !(n >= 0 && n in db.jobs) {
      return Forward(JobNotFound);
    }
    if HasApplied(db.applications, n, seekerId) {
      return Forward(AlreadyApplied);
    }
    var a := Application(db.nextApplicationId, n, seekerId, Get(body, "coverLetter"), "PENDING");
    db.applications := db.applications[a.id := a];
    db.nextApplicationId := db.nextApplicationId + 1;
    res := Respond(201, a);
  }

  /** The second of two identical applications is refused and adds
      nothing. */
  method ApplyTwice(db: Db, seekerId: nat, body: map<string, Value>) returns (first: Response<Application>, second: Response<Application>)
    requires db.Valid() && OnePerPair(db.applications)
    requires Get(body, "jobId").Some? && Get(body, "jobId").value.Num?
    requires body["jobId"].n >= 0 && body["jobId"].n in db.jobs
    modifies db`applications, db`nextApplicationId
    ensures first.Respond? ==> second == Forward(AlreadyApplied)
    ensures !first.Respond? ==> first == Forward(AlreadyApplied) && second == Forward(AlreadyApplied)
    ensures |db.applications| <= |old(db.applications)| + 1
    ensures OnePerPair(db.applications)
  {
    first := ApplyForJob(db, seekerId, body);
    var afterFirst := db.applications;
    second := ApplyForJob(db, seekerId, body);
    if first.Respond? {
      assert first.body.id in afterFirst;
    }
    assert db.applications == afterFirst;
  }

  // ---- getApplications ----

  /** The `where` object of `getApplications`. */
  datatype ApplicationFilter = ApplicationFilter(jobSeekerId: nat, status: Option<string>)

  function ApplicationFilterOf(seekerId: nat, status: Option<string>): (f: ApplicationFilter)
    ensures f.jobSeekerId == seekerId
    ensures f.status.Some? <==> Supplied(status)
    ensures f.status.Some? ==> f.status == status
  {
    ApplicationFilter(seekerId, IfSupplied(status))
  }

  predicate ApplicationSelected(f: ApplicationFilter, a: Application) {
    a.jobSeekerId == f.jobSeekerId && (f.status.Some? ==> a.status == f.status.value)
  }

  /** `getApplications` over the applications in `createdAt`-descending
      order: only the caller's, and only those with the status when one is
      supplied. */
  function GetApplications(applications: seq<Application>, seekerId: nat, status: Option<string>,
                           page: Option<nat>, limit: Option<nat>): (r: Response<Listing<Application>>)
    ensures r.Respond? ==> forall i :: 0 <= i < |r.body.rows| ==>
      && r.body.rows[i] in applications
      && r.body.rows[i].jobSeekerId == seekerId
      && (Supplied(status) ==> r.body.rows[i].status == status.value)
    ensures r.Respond? ==>
      var matching := Where(applications, (a: Application) => ApplicationSelected(ApplicationFilterOf(seekerId, status), a));
      && Fetch(matching, WindowOf(page, limit)) == Some(r.body.rows)
      && r.body.pagination == PageInfoOf(|matching|, page, limit)
    ensures r.Forward? <==> WindowOf(page, limit).skip < 0
    ensures r.Forward? ==> r.error == PrismaValidation
  {
    var f := ApplicationFilterOf(seekerId, status);
    Paginate(applications, (a: Application) => ApplicationSelected(f, a), page, limit)
  }

  /** Another seeker's application is never listed. */
  lemma OthersApplicationsHidden(applications: seq<Application>, seekerId: nat, status: Option<string>,
                                 page: Option<nat>, limit: Option<nat>, a: Application)
    requires a.jobSeekerId != seekerId
    ensures var r := GetApplications(applications, seekerId, status, page, limit);
      r.Respond? ==> a !in r.body.rows
  {
  }

  // ---- updateJobPreferences ----

  /** `updateJobPreferences`: upserts the caller's preferences with the
      listed columns the body carries. */
  method UpdateJobPreferences(db: Db, userId: nat, body: map<string, Value>) returns (res: Response<map<string, Value>>)
    requires db.Valid()
    modifies db`preferences
    ensures db.Valid()
    ensures var before := if userId in old(db.preferences) then old(db.preferences)[userId] else map[];
      && db.preferences == old(db.preferences)[userId := Merge(before, body, PreferenceColumns)]
      && res == Respond(200, db.preferences[userId])
  {
    var before := if userId in db.preferences then db.preferences[userId] else map[];
    var row := Merge(before, body, PreferenceColumns);
    db.preferences := db.preferences[userId := row];
    res := Respond(200, row);
  }
}
