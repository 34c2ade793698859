/** The recruiter handlers of `recruiter.controller.ts`: the dashboard
    metrics, the company profile with wholesale replacement of its value,
    benefit and location rows, job creation, update and deletion with
    wholesale replacement of the required skills, and the candidate
    (job application) lookups. The caller's id is a parameter; a company's
    id is its recruiter's user id. */
module Recruiter {
  import opened Common
  import opened Json
  import opened Store
  import opened Pagination

  const CompanyNotFound := AppError("Company not found", 404)
  const JobNotFound := AppError("Job not found", 404)
  const CandidateNotFound := AppError("Candidate not found", 404)

  /** The scalar columns `updateCompanyProfile` writes. */
  const CompanyColumns := {"name", "industry", "size", "foundingYear", "website", "description", "mission", "logoUrl"}

  /** The scalar columns `createJob` writes. */
  const CreateJobColumns := {"title", "description", "requirements", "responsibilities", "salaryRange",
                             "jobType", "experienceLevel", "locationType"}

  /** `updateJob` writes the same columns and `status`. */
  const UpdateJobColumns := CreateJobColumns + {"status"}

  // ---- getDashboard ----

  /** A job of the company with the applications Prisma includes, keyed by
      their ids. */
  datatype JobEntry = JobEntry(job: Job, applications: map<nat, JobApplication>)

  datatype Metrics = Metrics(totalJobs: nat, totalApplications: nat, activeJobs: nat)

  predicate PublishedJob(j: Job) {
    Get(j.columns, "status") == Some(Str("PUBLISHED"))
  }

  predicate Published(e: JobEntry) {
    PublishedJob(e.job)
  }

  /** `jobs.reduce((acc, job) => acc + job.applications.length, 0)`. */
  function TotalApplications(jobs: seq<JobEntry>): (n: nat)
    ensures jobs == [] ==> n == 0
    ensures |jobs| == 1 ==> n == |jobs[0].applications|
  {
    if jobs == [] then 0 else TotalApplications(jobs[..|jobs| - 1]) + |jobs[|jobs| - 1].applications|
  }

  lemma {:induction false} TotalApplicationsAppend(a: seq<JobEntry>, b: seq<JobEntry>)
    ensures TotalApplications(a + b) == TotalApplications(a) + TotalApplications(b)
    decreases |b|
  {
    if b != [] {
      assert (a + b)[..|a + b| - 1] == a + b[..|b| - 1];
      assert (a + b)[|a + b| - 1] == b[|b| - 1];
      TotalApplicationsAppend(a, b[..|b| - 1]);
      assert TotalApplications(a + b) == TotalApplications(a + b[..|b| - 1]) + |b[|b| - 1].applications|;
    } else {
      assert a + b == a;
    }
  }

  /** Each application is counted once: the total is at least any one
      job's count, and zero exactly when no job has applications. */
  lemma {:induction false} TotalApplicationsBounds(jobs: seq<JobEntry>)
    ensures forall i :: 0 <= i < |jobs| ==> |jobs[i].applications| <= TotalApplications(jobs)
    ensures TotalApplications(jobs) == 0 <==> forall i :: 0 <= i < |jobs| ==> jobs[i].applications == map[]
  {
    if jobs != [] {
      var init := jobs[..|jobs| - 1];
      TotalApplicationsBounds(init);
      assert forall i :: 0 <= i < |init| ==> init[i] == jobs[i];
    }
  }

  function DashboardMetrics(jobs: seq<JobEntry>): (m: Metrics)
    ensures m.totalJobs == |jobs|
    ensures m.activeJobs <= m.totalJobs
    ensures m.activeJobs == |Where(jobs, Published)|
    ensures m.totalApplications == TotalApplications(jobs)
  {
    Metrics(|jobs|, TotalApplications(jobs), |Where(jobs, Published)|)
  }

  /** Jobs that the search lists (status ACTIVE) are never counted as
      active jobs on the dashboard, which counts PUBLISHED ones. */
  lemma SearchableJobsNotActive(jobs: seq<JobEntry>)
    requires forall i :: 0 <= i < |jobs| ==> Get(jobs[i].job.columns, "status") == Some(Str("ACTIVE"))
    ensures DashboardMetrics(jobs).activeJobs == 0
  {
    WhereEmpty(jobs, Published);
  }

  /** The applications to job `id`, as `include: { applications: true }`
      reads them. */
  function ApplicationsTo(jobApplications: map<nat, JobApplication>, id: nat): (r: map<nat, JobApplication>)
    ensures forall a :: a in r <==> a in jobApplications && jobApplications[a].jobId == id
    ensures forall a :: a in r ==> r[a] == jobApplications[a]
  {
    map a | a in jobApplications && jobApplications[a].jobId == id :: jobApplications[a]
  }

  predicate Distinct(order: seq<nat>) {
    forall i, k :: 0 <= i < k < |order| ==> order[i] != order[k]
  }

  /** `order` lists each job of the company exactly once: the order in
      which Prisma returns the included jobs, which the query leaves open. */
  predicate ListsCompanyJobs(jobs: map<nat, Job>, recruiterId: nat, order: seq<nat>) {
    && (forall i :: 0 <= i < |order| ==> order[i] in jobs && jobs[order[i]].companyId == recruiterId)
    && Distinct(order)
    && (forall id :: id in jobs && jobs[id].companyId == recruiterId ==> id in order)
  }

  /** `company.jobs` with their applications, in the given order. */
  function CompanyJobs(jobs: map<nat, Job>, jobApplications: map<nat, JobApplication>, order: seq<nat>): (r: seq<JobEntry>)
    requires forall i :: 0 <= i < |order| ==> order[i] in jobs
    ensures |r| == |order|
    ensures forall i :: 0 <= i < |order| ==> r[i] == JobEntry(jobs[order[i]], ApplicationsTo(jobApplications, order[i]))
  {
    if order == [] then []
    else
      var last := order[|order| - 1];
      CompanyJobs(jobs, jobApplications, order[..|order| - 1]) + [JobEntry(jobs[last], ApplicationsTo(jobApplications, last))]
  }

  /** The ids of the company's PUBLISHED jobs. */
  function PublishedJobs(jobs: map<nat, Job>, recruiterId: nat): (r: set<nat>)
    ensures forall id :: id in r <==> id in jobs && jobs[id].companyId == recruiterId && PublishedJob(jobs[id])
  {
    set id | id in jobs && jobs[id].companyId == recruiterId && PublishedJob(jobs[id])
  }

  function Elements(order: seq<nat>): set<nat> {
    set x | x in order
  }

  /** The listed jobs among `ids` that are PUBLISHED. */
  function PublishedAmong(jobs: map<nat, Job>, ids: set<nat>): set<nat> {
    set id | id in ids && id in jobs && PublishedJob(jobs[id])
  }

  /** The applications whose job is among `ids`. */
  function ApplicationsOf(jobApplications: map<nat, JobApplication>, ids: set<nat>): set<nat> {
    set a | a in jobApplications && jobApplications[a].jobId in ids
  }

  /** Removing the last id of a list without repeats leaves a list without
      repeats that does not contain it. */
  lemma DistinctSnoc(order: seq<nat>)
    requires order != [] && Distinct(order)
    ensures Distinct(order[..|order| - 1])
    ensures Elements(order) == Elements(order[..|order| - 1]) + {order[|order| - 1]}
    ensures order[|order| - 1] !in Elements(order[..|order| - 1])
  {
    var init := order[..|order| - 1];
    assert order == init + [order[|order| - 1]];
    assert forall i :: 0 <= i < |init| ==> init[i] == order[i];
  }

  lemma {:induction false} DistinctCard(order: seq<nat>)
    requires Distinct(order)
    ensures |Elements(order)| == |order|
  {
    if order != [] {
      DistinctSnoc(order);
      DistinctCard(order[..|order| - 1]);
    }
  }

  lemma PublishedAmongAdd(jobs: map<nat, Job>, ids: set<nat>, x: nat)
    requires x !in ids && x in jobs
    ensures |PublishedAmong(jobs, ids + {x})| == |PublishedAmong(jobs, ids)| + (if PublishedJob(jobs[x]) then 1 else 0)
  {
    assert PublishedAmong(jobs, ids + {x}) == PublishedAmong(jobs, ids) + (if PublishedJob(jobs[x]) then {x} else {});
  }

  lemma ApplicationsOfAdd(jobApplications: map<nat, JobApplication>, ids: set<nat>, x: nat)
    requires x !in ids
    ensures |ApplicationsOf(jobApplications, ids + {x})|
      == |ApplicationsOf(jobApplications, ids)| + |ApplicationsTo(jobApplications, x)|
  {
    var before := ApplicationsOf(jobApplications, ids);
    var to := ApplicationsTo(jobApplications, x);
    ApplicationsOfSplit(jobApplications, ids, x);
    assert |to.Keys| == |to|;
    DisjointCard(before, to.Keys);
  }

  /** The applications to `ids + {x}` are those to `ids` and, apart from
      them, those to `x`. */
  lemma ApplicationsOfSplit(jobApplications: map<nat, JobApplication>, ids: set<nat>, x: nat)
    requires x !in ids
    ensures ApplicationsOf(jobApplications, ids + {x})
      == ApplicationsOf(jobApplications, ids) + ApplicationsTo(jobApplications, x).Keys
    ensures ApplicationsOf(jobApplications, ids) * ApplicationsTo(jobApplications, x).Keys == {}
  {
    forall a | a in ApplicationsTo(jobApplications, x).Keys
      ensures a !in ApplicationsOf(jobApplications, ids)
    {
      assert jobApplications[a].jobId == x;
    }
  }

  lemma DisjointCard(a: set<nat>, b: set<nat>)
    requires a * b == {}
    ensures |a + b| == |a| + |b|
  {
  }

  /** Counting the PUBLISHED entries counts the PUBLISHED listed jobs. */
  lemma {:induction false} PublishedCount(jobs: map<nat, Job>, jobApplications: map<nat, JobApplication>, order: seq<nat>)
    requires forall i :: 0 <= i < |order| ==> order[i] in jobs
    requires Distinct(order)
    ensures |Where(CompanyJobs(jobs, jobApplications, order), Published)| == |PublishedAmong(jobs, Elements(order))|
  {
    if order != [] {
      var init := order[..|order| - 1];
      var last := order[|order| - 1];
      DistinctSnoc(order);
      PublishedCount(jobs, jobApplications, init);
      var e := JobEntry(jobs[last], ApplicationsTo(jobApplications, last));
      assert CompanyJobs(jobs, jobApplications, order) == CompanyJobs(jobs, jobApplications, init) + [e];
      WhereAppend(CompanyJobs(jobs, jobApplications, init), [e], Published);
      WhereOne(e, Published);
      PublishedAmongAdd(jobs, Elements(init), last);
    }
  }

  /** Summing the included applications counts the applications whose job
      is listed, each once. */
  lemma {:induction false} ApplicationCount(jobs: map<nat, Job>, jobApplications: map<nat, JobApplication>, order: seq<nat>)
    requires forall i :: 0 <= i < |order| ==> order[i] in jobs
    requires Distinct(order)
    ensures TotalApplications(CompanyJobs(jobs, jobApplications, order)) == |ApplicationsOf(jobApplications, Elements(order))|
  {
    if order != [] {
      var init := order[..|order| - 1];
      var last := order[|order| - 1];
      DistinctSnoc(order);
      ApplicationCount(jobs, jobApplications, init);
      var entries := CompanyJobs(jobs, jobApplications, order);
      assert entries[..|entries| - 1] == CompanyJobs(jobs, jobApplications, init);
      ApplicationsOfAdd(jobApplications, Elements(init), last);
    }
  }

  /** The metrics over the listed jobs count the company's jobs, its
      PUBLISHED jobs and the applications to its jobs in the store. */
  lemma DashboardCounts(jobs: map<nat, Job>, jobApplications: map<nat, JobApplication>, recruiterId: nat, order: seq<nat>)
    requires ListsCompanyJobs(jobs, recruiterId, order)
    ensures var m := DashboardMetrics(CompanyJobs(jobs, jobApplications, order));
      && m.totalJobs == |GetJobs(jobs, recruiterId)|
      && m.activeJobs == |PublishedJobs(jobs, recruiterId)|
      && m.totalApplications == |GetCandidates(jobApplications, jobs, recruiterId)|
  {
    DistinctCard(order);
    assert GetJobs(jobs, recruiterId).Keys == Elements(order);
    PublishedCount(jobs, jobApplications, order);
    assert PublishedJobs(jobs, recruiterId) == PublishedAmong(jobs, Elements(order));
    ApplicationCount(jobs, jobApplications, order);
    assert GetCandidates(jobApplications, jobs, recruiterId).Keys == ApplicationsOf(jobApplications, Elements(order));
  }

  /** `getDashboard`: the company whose id is the caller's, its jobs with
      their applications, and the metrics over them. */
  function GetDashboard(companies: map<nat, Company>, jobs: map<nat, Job>, jobApplications: map<nat, JobApplication>,
                        recruiterId: nat, order: seq<nat>)
    : (r: Response<(Company, seq<JobEntry>, Metrics)>)
    requires ListsCompanyJobs(jobs, recruiterId, order)
    ensures recruiterId !in companies <==> r == Forward(CompanyNotFound)
    ensures recruiterId in companies ==>
      (r.Respond? && r.statusCode == 200
       && r.body.0 == companies[recruiterId] && r.body.1 == CompanyJobs(jobs, jobApplications, order))
    ensures r.Respond? ==> r.body.2.totalJobs == |GetJobs(jobs, recruiterId)|
    ensures r.Respond? ==> r.body.2.activeJobs == |PublishedJobs(jobs, recruiterId)|
    ensures r.Respond? ==> r.body.2.totalApplications == |GetCandidates(jobApplications, jobs, recruiterId)|
  {
    var entries := CompanyJobs(jobs, jobApplications, order);
    DashboardCounts(jobs, jobApplications, recruiterId, order);
    if recruiterId in companies then Respond(200, (companies[recruiterId], entries, DashboardMetrics(entries)))
    else Forward(CompanyNotFound)
  }

  // ---- company profile ----

  function GetCompanyProfile(companies: map<nat, Company>, recruiterId: nat): (r: Response<Company>)
    ensures recruiterId !in companies <==> r == Forward(CompanyNotFound)
    ensures recruiterId in companies ==> r == Respond(200, companies[recruiterId])
  {
    if recruiterId in companies then Respond(200, companies[recruiterId]) else Forward(CompanyNotFound)
  }

  /** Every element is an object, as a nested `create` list needs. */
  predicate AllObjects(items: seq<Value>) {
    forall i :: 0 <= i < |items| ==> items[i].Obj?
  }

  /** The rows of `{ deleteMany: {}, create: list }`: the old rows always go;
      `undefined` creates nothing, an array of objects creates its elements
      in order, a single object creates one row, and anything else (an
      array with a non-object element among them) is a Prisma validation
      error. */
  function ChildRows(v: Option<Value>): (r: Option<seq<Value>>)
    ensures v.None? ==> r == Some([])
    ensures v.Some? && v.value.Arr? && AllObjects(v.value.items) ==> r == Some(v.value.items)
    ensures v.Some? && v.value.Obj? ==> r == Some([v.value])
    ensures r.None? <==> v.Some? && !(v.value.Arr? && AllObjects(v.value.items)) && !v.value.Obj?
    ensures r.Some? ==> AllObjects(r.value)
  {
    match v
    case None => Some([])
    case Some(Arr(items)) => if AllObjects(items) then Some(items) else None
    case Some(Obj(_)) => Some([v.value])
    case Some(_) => None
  }

  /** The list of names the `updateCompany` schema prescribes cannot be
      created: one string element makes the update fail. */
  lemma StringListNotCreatable(names: seq<string>)
    requires |names| >= 1
    ensures ChildRows(Some(Arr(seq(|names|, i requires 0 <= i < |names| => Str(names[i]))))).None?
  {
    var items := seq(|names|, i requires 0 <= i < |names| => Str(names[i]));
    assert !items[0].Obj?;
  }

  /** The company after `updateCompanyProfile`, or `None` for a validation
      error in one of the child lists. */
  function UpdatedCompany(c: Company, body: map<string, Value>): (r: Option<Company>)
    ensures r.None? <==> ChildRows(Get(body, "values")).None? || ChildRows(Get(body, "benefits")).None?
                         || ChildRows(Get(body, "locations")).None?
    ensures r.Some? ==>
      && r.value.id == c.id
      && r.value.columns == Merge(c.columns, body, CompanyColumns)
      && r.value.values == ChildRows(Get(body, "values")).value
      && r.value.benefits == ChildRows(Get(body, "benefits")).value
      && r.value.locations == ChildRows(Get(body, "locations")).value
  {
    var values := ChildRows(Get(body, "values"));
    var benefits := ChildRows(Get(body, "benefits"));
    var locations := ChildRows(Get(body, "locations"));
    if values.None? || benefits.None? || locations.None? then None
    else Some(Company(c.id, Merge(c.columns, body, CompanyColumns), values.value, benefits.value, locations.value))
  }

  /** Every child list of the body can be passed to `create`: Prisma checks
      this before it looks the company up. */
  predicate ChildListsCreatable(body: map<string, Value>) {
    && ChildRows(Get(body, "values")).Some?
    && ChildRows(Get(body, "benefits")).Some?
    && ChildRows(Get(body, "locations")).Some?
  }

  /** `updateCompanyProfile`: one nested Prisma update of the caller's
      company, applied whole or not at all. */
  method UpdateCompanyProfile(db: Db, recruiterId: nat, body: map<string, Value>) returns (res: Response<Company>)
    requires db.Valid()
    modifies db`companies
    ensures db.Valid()
    ensures !ChildListsCreatable(body) ==>
      res == Forward(PrismaValidation) && db.companies == old(db.companies)
    ensures ChildListsCreatable(body) && recruiterId !in old(db.companies) ==>
      res == Forward(RecordNotFound) && db.companies == old(db.companies)
    ensures ChildListsCreatable(body) && recruiterId in old(db.companies) ==>
      && UpdatedCompany(old(db.companies)[recruiterId], body).Some?
      && var c := UpdatedCompany(old(db.companies)[recruiterId], body).value;
         db.companies == old(db.companies)[recruiterId := c] && res == Respond(200, c)
  {
    if !ChildListsCreatable(body) {
      return Forward(PrismaValidation);
    }
    if recruiterId !in db.companies {
      return Forward(RecordNotFound);
    }
    var c := UpdatedCompany(db.companies[recruiterId], body).value;
    db.companies := db.companies[recruiterId := c];
    res := Response.Respond(200, c);
  }

  /** A list the body omits is emptied, not kept: `deleteMany` runs
      regardless. */
  lemma OmittedCompanyListsEmptied(c: Company, body: map<string, Value>)
    requires "values" !in body && "benefits" !in body && "locations" !in body
    ensures UpdatedCompany(c, body) == Some(Company(c.id, Merge(c.columns, body, CompanyColumns), [], [], []))
  {
  }

  /** The child lists after an update depend only on the body, not on the
      rows they replace. */
  lemma CompanyListsReplacedWholesale(c1: Company, c2: Company, body: map<string, Value>)
    requires UpdatedCompany(c1, body).Some?
    ensures UpdatedCompany(c2, body).Some?
    ensures UpdatedCompany(c1, body).value.values == UpdatedCompany(c2, body).value.values
    ensures UpdatedCompany(c1, body).value.benefits == UpdatedCompany(c2, body).value.benefits
    ensures UpdatedCompany(c1, body).value.locations == UpdatedCompany(c2, body).value.locations
  {
  }

  // ---- jobs ----

  /** `getJobs`: the jobs whose company is the caller's. */
  function GetJobs(jobs: map<nat, Job>, recruiterId: nat): (r: map<nat, Job>)
    ensures forall id :: id in r <==> id in jobs && jobs[id].companyId == recruiterId
    ensures forall id :: id in r ==> r[id] == jobs[id]
  {
    map id | id in jobs && jobs[id].companyId == recruiterId :: jobs[id]
  }

  /** `{ skillId: skill.id, importanceLevel: skill.importanceLevel }` for one
      element; reading a property of `null` throws, which is `None`. */
  function SkillRow(v: Value): (r: Option<RequiredSkill>)
    ensures r.None? <==> v.Null?
    ensures v.Obj? ==> r == Some(RequiredSkill(Get(v.fields, "id"), Get(v.fields, "importanceLevel")))
    ensures !v.Obj? && !v.Null? ==> r == Some(RequiredSkill(None, None))
  {
    match v
    case Null => None
    case Obj(fields) => Some(RequiredSkill(Get(fields, "id"), Get(fields, "importanceLevel")))
    case _ => Some(RequiredSkill(None, None))
  }

  /** `requiredSkills.map(...)`: `None` when the value is not an array or
      one element throws. */
  function RequiredSkillsOf(v: Option<Value>): (r: Option<seq<RequiredSkill>>)
    ensures r.Some? <==> v.Some? && v.value.Arr? && forall i :: 0 <= i < |v.value.items| ==> !v.value.items[i].Null?
    ensures r.Some? ==>
      && |r.value| == |v.value.items|
      && forall i :: 0 <= i < |r.value| ==> Some(r.value[i]) == SkillRow(v.value.items[i])
  {
    if v.Some? && v.value.Arr? then MapSkills(v.value.items) else None
  }

  function MapSkills(items: seq<Value>): (r: Option<seq<RequiredSkill>>)
    ensures r.Some? <==> forall i :: 0 <= i < |items| ==> !items[i].Null?
    ensures r.Some? ==> |r.value| == |items| && forall i :: 0 <= i < |items| ==> Some(r.value[i]) == SkillRow(items[i])
  {
    if items == [] then Some([])
    else
      var head := SkillRow(items[0]);
      var rest := MapSkills(items[1..]);
      assert forall i :: 1 <= i < |items| ==> items[1..][i - 1] == items[i];
      if head.Some? && rest.Some? then Some([head.value] + rest.value) else None
  }

  /** Every row names its skill by an integer id, as a nested `create` of
      the required skills needs: an element without `id` gives `skillId:
      undefined`, which Prisma refuses. */
  predicate SkillsCreatable(skills: seq<RequiredSkill>) {
    forall i :: 0 <= i < |skills| ==> skills[i].skillId.Some? && skills[i].skillId.value.Num?
  }

  /** A skill element without an `id` passes the `map` but not Prisma. */
  lemma SkillWithoutIdRefused(fields: map<string, Value>)
    requires "id" !in fields
    ensures var skills := RequiredSkillsOf(Some(Arr([Obj(fields)])));
      skills.Some? && !SkillsCreatable(skills.value)
  {
    var skills := RequiredSkillsOf(Some(Arr([Obj(fields)])));
    assert Some(skills.value[0]) == SkillRow(Obj(fields));
  }

  /** The exception kind of a row whose foreign key names no row. */
  const ForeignKeyViolation := Thrown("PrismaClientKnownRequestError P2003")

  /** `createJob`: a new job of the caller's company, its required skills
      one row per element, in order. A `requiredSkills` that is not an
      array of non-null values throws a TypeError before anything is
      written; a skill row without an id is refused by Prisma before the
      query runs; and the database refuses a `companyId` that names no
      company. */
  method CreateJob(db: Db, recruiterId: nat, body: map<string, Value>) returns (res: Response<Job>)
    requires db.Valid()
    modifies db`jobs, db`nextJobId
    ensures db.Valid()
    ensures RequiredSkillsOf(Get(body, "requiredSkills")).None? ==>
      res == Forward(TypeError) && db.jobs == old(db.jobs) && db.nextJobId == old(db.nextJobId)
    ensures RequiredSkillsOf(Get(body, "requiredSkills")).Some? && !SkillsCreatable(RequiredSkillsOf(Get(body, "requiredSkills")).value) ==>
      res == Forward(PrismaValidation) && db.jobs == old(db.jobs) && db.nextJobId == old(db.nextJobId)
    ensures RequiredSkillsOf(Get(body, "requiredSkills")).Some? && SkillsCreatable(RequiredSkillsOf(Get(body, "requiredSkills")).value)
            && recruiterId !in db.companies ==>
      res == Forward(ForeignKeyViolation) && db.jobs == old(db.jobs) && db.nextJobId == old(db.nextJobId)
    ensures RequiredSkillsOf(Get(body, "requiredSkills")).Some? && SkillsCreatable(RequiredSkillsOf(Get(body, "requiredSkills")).value)
            && recruiterId in db.companies ==>
      var j := Job(old(db.nextJobId), recruiterId, Merge(map[], body, CreateJobColumns),
                   RequiredSkillsOf(Get(body, "requiredSkills")).value);
      && j.id !in old(db.jobs)
      && db.jobs == old(db.jobs)[j.id := j]
      && res == Respond(201, j)
  {
    var skills := RequiredSkillsOf(Get(body, "requiredSkills"));
    if skills.None? {
      return Forward(TypeError);
    }
    if !SkillsCreatable(skills.value) {
      return Forward(PrismaValidation);
    }
    if recruiterId !in db.companies {
      return Forward(ForeignKeyViolation);
    }
    var j := Job(db.nextJobId, recruiterId, Merge(map[], body, CreateJobColumns), skills.value);
    db.jobs := db.jobs[j.id := j];
    db.nextJobId := db.nextJobId + 1;
    res := Respond(201, j);
  }

  /** The recruiter's `getJobDetails`: the job with its applications. */
  function GetJobDetails(jobs: map<nat, Job>, jobApplications: map<nat, JobApplication>, id: nat)
    : (r: Response<(Job, map<nat, JobApplication>)>)
    ensures id !in jobs <==> r == Forward(JobNotFound)
    ensures id in jobs ==> r.Respond? && r.statusCode == 200 && r.body.0 == jobs[id]
    ensures r.Respond? ==> forall a :: a in r.body.1 <==> a in jobApplications && jobApplications[a].jobId == id
    ensures r.Respond? ==> forall a :: a in r.body.1 ==> r.body.1[a] == jobApplications[a]
  {
    if id in jobs then Respond(200, (jobs[id], ApplicationsTo(jobApplications, id)))
    else Forward(JobNotFound)
  }

  /** The job after `updateJob`: the listed columns the body carries are
      written and the required skills are replaced by the mapped list. */
  function UpdatedJob(j: Job, body: map<string, Value>, skills: seq<RequiredSkill>): (r: Job)
    ensures r.id == j.id && r.companyId == j.companyId
    ensures r.columns == Merge(j.columns, body, UpdateJobColumns)
    ensures r.requiredSkills == skills
  {
    j.(columns := Merge(j.columns, body, UpdateJobColumns), requiredSkills := skills)
  }

  /** `updateJob`. The skill list is mapped while the update's arguments
      are built, so its TypeError comes before Prisma's check of the skill
      rows, which comes before the missing-record error.
      Any recruiter may update any job: the caller's id plays no part. */
  method UpdateJob(db: Db, id: nat, body: map<string, Value>) returns (res: Response<Job>)
    requires db.Valid()
    modifies db`jobs
    ensures db.Valid()
    ensures RequiredSkillsOf(Get(body, "requiredSkills")).None? ==>
      res == Forward(TypeError) && db.jobs == old(db.jobs)
    ensures RequiredSkillsOf(Get(body, "requiredSkills")).Some? && !SkillsCreatable(RequiredSkillsOf(Get(body, "requiredSkills")).value) ==>
      res == Forward(PrismaValidation) && db.jobs == old(db.jobs)
    ensures RequiredSkillsOf(Get(body, "requiredSkills")).Some? && SkillsCreatable(RequiredSkillsOf(Get(body, "requiredSkills")).value)
            && id !in old(db.jobs) ==>
      res == Forward(RecordNotFound) && db.jobs == old(db.jobs)
    ensures RequiredSkillsOf(Get(body, "requiredSkills")).Some? && SkillsCreatable(RequiredSkillsOf(Get(body, "requiredSkills")).value)
            && id in old(db.jobs) ==>
      var j := UpdatedJob(old(db.jobs)[id], body, RequiredSkillsOf(Get(body, "requiredSkills")).value);
      db.jobs == old(db.jobs)[id := j] && res == Respond(200, j)
  {
    var skills := RequiredSkillsOf(Get(body, "requiredSkills"));
    if skills.None? {
      return Forward(TypeError);
    }
    if !SkillsCreatable(skills.value) {
      return Forward(PrismaValidation);
    }
    if id !in db.jobs {
      return Forward(RecordNotFound);
    }
    var j := UpdatedJob(db.jobs[id], body, skills.value);
    db.jobs := db.jobs[id := j];
    res := Respond(200, j);
  }

  /** The updated job keeps its id and company, and its required skills are
      exactly the new list, whatever the old one was. */
  lemma UpdatedJobReplacesSkills(j: Job, body: map<string, Value>, skills: seq<RequiredSkill>)
    ensures UpdatedJob(j, body, skills).id == j.id && UpdatedJob(j, body, skills).companyId == j.companyId
    ensures UpdatedJob(j, body, skills).requiredSkills == skills
    ensures forall k :: k in j.columns && k !in body ==> UpdatedJob(j, body, skills).columns[k] == j.columns[k]
  {
  }

  /** `deleteJob`: removes exactly that job and answers 204. */
  method DeleteJob(db: Db, id: nat) returns (res: Response<Value>)
    requires db.Valid()
    modifies db`jobs
    ensures db.Valid()
    ensures id !in old(db.jobs) ==> res == Forward(RecordNotFound) && db.jobs == old(db.jobs)
    ensures id in old(db.jobs) ==> res == Respond(204, Null) && db.jobs == old(db.jobs) - {id}
  {
    if id !in db.jobs {
      return Forward(RecordNotFound);
    }
    db.jobs := db.jobs - {id};
    res := Respond(204, Null);
  }

  // ---- candidates ----

  /** `getCandidates`: the applications to jobs of the caller's company. */
  function GetCandidates(jobApplications: map<nat, JobApplication>, jobs: map<nat, Job>, recruiterId: nat)
    : (r: map<nat, JobApplication>)
    ensures forall a :: a in r <==>
      a in jobApplications && jobApplications[a].jobId in jobs && jobs[jobApplications[a].jobId].companyId == recruiterId
    ensures forall a :: a in r ==> r[a] == jobApplications[a]
  {
    map a | a in jobApplications && jobApplications[a].jobId in jobs && jobs[jobApplications[a].jobId].companyId == recruiterId
      :: jobApplications[a]
  }

  function GetCandidateDetails(jobApplications: map<nat, JobApplication>, id: nat): (r: Response<JobApplication>)
    ensures id !in jobApplications <==> r == Forward(CandidateNotFound)
    ensures id in jobApplications ==> r == Respond(200, jobApplications[id])
  {
    if id in jobApplications then Respond(200, jobApplications[id]) else Forward(CandidateNotFound)
  }

  /** `updateCandidateStatus`: only that application's status changes; an
      omitted status leaves the row as it is, and a non-string one is a
      validation error. */
  method UpdateCandidateStatus(db: Db, id: nat, body: map<string, Value>) returns (res: Response<JobApplication>)
    requires db.Valid()
    modifies db`jobApplications
    ensures db.Valid()
    ensures Get(body, "status").Some? && !body["status"].Str? ==>
      res == Forward(PrismaValidation) && db.jobApplications == old(db.jobApplications)
    ensures !(Get(body, "status").Some? && !body["status"].Str?) && id !in old(db.jobApplications) ==>
      res == Forward(RecordNotFound) && db.jobApplications == old(db.jobApplications)
    ensures id in old(db.jobApplications) && Get(body, "status").None? ==>
      res == Respond(200, old(db.jobApplications)[id]) && db.jobApplications == old(db.jobApplications)
    ensures id in old(db.jobApplications) && Get(body, "status").Some? && body["status"].Str? ==>
      var a := old(db.jobApplications)[id].(status := body["status"].s);
      db.jobApplications == old(db.jobApplications)[id := a] && res == Respond(200, a)
  {
    var status := Get(body, "status");
    if status.Some? && !status.value.Str? {
      return Forward(PrismaValidation);
    }
    if id !in db.jobApplications {
      return Forward(RecordNotFound);
    }
    var a := db.jobApplications[id];
    if status.Some? {
      a := a.(status := status.value.s);
      db.jobApplications := db.jobApplications[id := a];
    }
    res := Respond(200, a);
  }
}
