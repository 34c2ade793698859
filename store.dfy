/** The records the controllers read and write, the database as one object
    whose tables are maps that the controllers reassign, and the Express
    request object that middleware rewrites in place. */
module Store {
  import opened Common
  import opened Json

  /** The one-to-one `profile` created with a user at registration. */
  datatype Profile = Profile(firstName: Option<string>, lastName: Option<string>)

  /** A row of the `user` table. `lastLogin` is a timestamp. */
  datatype User = User(
    id: nat,
    email: string,
    passwordHash: string,
    role: string,
    status: string,
    lastLogin: Option<nat>,
    profile: Profile)

  /** A user as the authentication routes return it: every field but the
      password hash (`const { passwordHash, ...userWithoutPassword } = user`). */
  datatype PublicUser = PublicUser(
    id: nat,
    email: string,
    role: string,
    status: string,
    lastLogin: Option<nat>,
    profile: Profile)

  function Public(u: User): (p: PublicUser)
    ensures p.id == u.id && p.email == u.email && p.role == u.role
    ensures p.status == u.status && p.lastLogin == u.lastLogin && p.profile == u.profile
  {
    PublicUser(u.id, u.email, u.role, u.status, u.lastLogin, u.profile)
  }

  /** The response never depends on the stored hash. */
  lemma PublicIgnoresHash(u: User, h: string)
    ensures Public(u.(passwordHash := h)) == Public(u)
  {
  }

  /** A `{ skillId, importanceLevel }` row of a job's required skills;
      `None` is a property the request did not carry. */
  datatype RequiredSkill = RequiredSkill(skillId: Option<Value>, importanceLevel: Option<Value>)

  /** A row of the `job` table: its scalar columns by name, the owning
      company, and its required-skill child rows. */
  datatype Job = Job(id: nat, companyId: nat, columns: map<string, Value>, requiredSkills: seq<RequiredSkill>)

  /** A row of the `application` table written by the job-seeker routes. */
  datatype Application = Application(id: nat, jobId: nat, jobSeekerId: nat, coverLetter: Option<Value>, status: string)

  /** A row of the `jobApplication` table read by the recruiter routes. */
  datatype JobApplication = JobApplication(id: nat, jobId: nat, jobseekerId: nat, status: string)

  /** A job seeker's profile with its skill, experience and education rows. */
  datatype SeekerProfile = SeekerProfile(
    userId: nat,
    columns: map<string, Value>,
    skills: seq<Value>,
    experience: seq<Value>,
    education: seq<Value>)

  /** A company with its value, benefit and location child rows. */
  datatype Company = Company(
    id: nat,
    columns: map<string, Value>,
    values: seq<Value>,
    benefits: seq<Value>,
    locations: seq<Value>)

  /** A row of the raw-SQL `Category`, `Industry` or `Location` tables;
      SQL `NULL` is `Null`. */
  datatype ContentItem = ContentItem(name: Value, description: Value, status: Value)

  /** One raw-SQL content table with its serial counter. */
  datatype ContentTable = ContentTable(rows: map<nat, ContentItem>, nextId: nat)

  ghost predicate ContentTableValid(t: ContentTable) {
    forall id :: id in t.rows ==> id < t.nextId
  }

  datatype ContentKind = Category | Industry | Location

  /** How Prisma applies `data: { a, b, ... }` built from a destructured
      body: a listed column the body carries takes the body's value (JSON
      `null` included); a column the body leaves `undefined` keeps its
      current value; keys outside the listed columns are ignored. */
  function Merge(current: map<string, Value>, body: map<string, Value>, columns: set<string>): (r: map<string, Value>)
    ensures r.Keys == current.Keys + (body.Keys * columns)
    ensures forall k :: k in columns && k in body ==> r[k] == body[k]
    ensures forall k :: k in current && !(k in columns && k in body) ==> r[k] == current[k]
  {
    map k | k in current.Keys + (body.Keys * columns) :: if k in columns && k in body then body[k] else current[k]
  }

  /** Applying the same update twice changes nothing the first did not. */
  lemma MergeIdempotent(current: map<string, Value>, body: map<string, Value>, columns: set<string>)
    ensures Merge(Merge(current, body, columns), body, columns) == Merge(current, body, columns)
  {
  }

  /** Email addresses are unique across the `user` table. */
  ghost predicate EmailsUnique(users: map<nat, User>) {
    forall a, b :: a in users && b in users && users[a].email == users[b].email ==> a == b
  }

  /** Some stored user has this email. */
  predicate EmailTaken(users: map<nat, User>, email: string) {
    exists id :: id in users && users[id].email == email
  }

  /** `findUnique({ where: { email } })`: the id of the one user with this
      email, if any. */
  ghost function ByEmail(users: map<nat, User>, email: string): (r: Option<nat>)
    requires EmailsUnique(users)
    ensures r.Some? <==> EmailTaken(users, email)
    ensures r.Some? ==> r.value in users && users[r.value].email == email
    ensures forall id :: id in users && users[id].email == email ==> r == Some(id)
  {
    if EmailTaken(users, email) then
      var id :| id in users && users[id].email == email;
      Some(id)
    else None
  }

  /** The database. Every table is a map from primary key (or, for
      profiles and preferences, from the owning user's id) to the row. */
  class Db {
    var users: map<nat, User>
    var nextUserId: nat
    var jobs: map<nat, Job>
    var nextJobId: nat
    var applications: map<nat, Application>
    var nextApplicationId: nat
    var jobApplications: map<nat, JobApplication>
    var profiles: map<nat, SeekerProfile>
    var preferences: map<nat, map<string, Value>>
    var companies: map<nat, Company>
    var content: map<ContentKind, ContentTable>
    var settings: map<string, Value>

    /** Primary keys agree with the rows, lie below the serial counters,
        emails are unique, and the three content tables exist. It reads only
        the tables it constrains, so a
        write to any other table keeps it. */
    ghost predicate Valid()
      reads this`users, this`nextUserId, this`jobs, this`nextJobId
      reads this`applications, this`nextApplicationId, this`content
    {
      && (forall id :: id in users ==> id < nextUserId && users[id].id == id)
      && EmailsUnique(users)
      && (forall id :: id in jobs ==> id < nextJobId && jobs[id].id == id)
      && (forall id :: id in applications ==> id < nextApplicationId && applications[id].id == id)
      && Category in content && Industry in content && Location in content
      && (forall k :: k in content ==> ContentTableValid(content[k]))
    }

    constructor ()
      ensures Valid()
      ensures users == map[] && jobs == map[] && applications == map[] && jobApplications == map[]
      ensures profiles == map[] && preferences == map[] && companies == map[] && settings == map[]
      ensures content == map[Category := ContentTable(map[], 1), Industry := ContentTable(map[], 1), Location := ContentTable(map[], 1)]
    {
      users, nextUserId := map[], 1;
      jobs, nextJobId := map[], 1;
      applications, nextApplicationId := map[], 1;
      jobApplications := map[];
      profiles, preferences, companies, settings := map[], map[], map[], map[];
      content := map[Category := ContentTable(map[], 1), Industry := ContentTable(map[], 1), Location := ContentTable(map[], 1)];
    }
  }

  /** The parts of an Express request the middleware reads and writes:
      the `Authorization` header, the parsed body and query (each `None`
      when absent) and `req.user`, which the authentication gate sets. */
  class Request {
    var authorization: Option<string>
    var body: Option<map<string, Value>>
    var query: Option<map<string, Value>>
    var user: Option<User>

    constructor (authorization: Option<string>, body: Option<map<string, Value>>, query: Option<map<string, Value>>)
      ensures this.authorization == authorization && this.body == body && this.query == query
      ensures user == None
    {
      this.authorization := authorization;
      this.body := body;
      this.query := query;
      this.user := None;
    }
  }
}
