/** The administrator handlers of `admin.controller.ts`: the user list with
    its optional filters and pagination, the role-dependent user details,
    the status update, the analytics time range, the raw-SQL content tables
    (categories, industries, locations) and the settings upsert loop. */
module Admin {
  import opened Common
  import opened Json
  import opened Store
  import opened Pagination
  import AuthController

  const UserNotFound := AppError("User not found", 404)

  /** What the database answers to a raw statement it refuses (here, a
      setting row without a string key). */
  const RawQueryFailed := Thrown("PrismaClientKnownRequestError")

  // ---- getUsers ----

  /** The query string of `getUsers`. */
  datatype UserQuery = UserQuery(role: Option<string>, status: Option<string>, page: Option<nat>, limit: Option<nat>)

  /** The `where` object: role and status only when supplied. */
  datatype UserFilter = UserFilter(role: Option<string>, status: Option<string>)

  predicate Supplied(v: Option<string>) {
    v.Some? && v.value != ""
  }

  function UserFilterOf(q: UserQuery): (f: UserFilter)
    ensures f.role.Some? <==> Supplied(q.role)
    ensures f.status.Some? <==> Supplied(q.status)
    ensures f.role.Some? ==> f.role == q.role
    ensures f.status.Some? ==> f.status == q.status
  {
    UserFilter(if Supplied(q.role) then q.role else None, if Supplied(q.status) then q.status else None)
  }

  predicate UserSelected(f: UserFilter, u: User) {
    (f.role.Some? ==> u.role == f.role.value) && (f.status.Some? ==> u.status == f.status.value)
  }

  /** A row of the list: the selected columns and, when counted, the number
      of the user's applications. */
  datatype UserSummary = UserSummary(
    id: nat,
    email: string,
    role: string,
    status: string,
    lastLogin: Option<nat>,
    applicationCount: Option<nat>)

  /** The applications counted are counted only when the query's role is
      exactly the lower-case `'jobseeker'`. */
  predicate CountsApplications(q: UserQuery) {
    q.role == Some("jobseeker")
  }

  function ApplicationCount(applications: map<nat, Application>, userId: nat): (n: nat)
    ensures n <= |applications|
    ensures n == 0 <==> forall a :: a in applications ==> applications[a].jobSeekerId != userId
  {
    OwnApplicationsCard(applications, userId);
    |OwnApplications(applications, userId)|
  }

  /** The ids of the user's applications, as `_count` counts them. */
  function OwnApplications(applications: map<nat, Application>, userId: nat): set<nat> {
    set a | a in applications && applications[a].jobSeekerId == userId
  }

  lemma OwnApplicationsCard(applications: map<nat, Application>, userId: nat)
    ensures |OwnApplications(applications, userId)| <= |applications|
    ensures OwnApplications(applications, userId) == {} <==> forall a :: a in applications ==> applications[a].jobSeekerId != userId
  {
    var own := OwnApplications(applications, userId);
    SubsetCard(own, applications.Keys);
    if exists a :: a in applications && applications[a].jobSeekerId == userId {
      var a :| a in applications && applications[a].jobSeekerId == userId;
      assert a in own;
    }
  }

  lemma SubsetCard(a: set<nat>, b: set<nat>)
    requires a <= b
    ensures |a| <= |b|
  {
    if a != {} {
      var x :| x in a;
      SubsetCard(a - {x}, b - {x});
    }
  }

  function Summary(u: User, applications: map<nat, Application>, counted: bool): (s: UserSummary)
    ensures s.id == u.id && s.email == u.email && s.role == u.role && s.status == u.status && s.lastLogin == u.lastLogin
    ensures s.applicationCount.Some? <==> counted
  {
    UserSummary(u.id, u.email, u.role, u.status, u.lastLogin,
                if counted then Some(ApplicationCount(applications, u.id)) else None)
  }

  function Summaries(us: seq<User>, applications: map<nat, Application>, counted: bool): (r: seq<UserSummary>)
    ensures |r| == |us| && forall i :: 0 <= i < |us| ==> r[i] == Summary(us[i], applications, counted)
  {
    if us == [] then [] else [Summary(us[0], applications, counted)] + Summaries(us[1..], applications, counted)
  }

  /** `getUsers` over the users in `createdAt`-descending order. */
  function GetUsers(users: seq<User>, applications: map<nat, Application>, q: UserQuery): (r: Response<Listing<UserSummary>>)
    ensures r.Forward? <==> WindowOf(q.page, q.limit).skip < 0
    ensures r.Forward? ==> r.error == PrismaValidation
    ensures r.Respond? ==>
      var page := Fetch(Where(users, (u: User) => UserSelected(UserFilterOf(q), u)), WindowOf(q.page, q.limit));
      page.Some? && r.body.rows == Summaries(page.value, applications, CountsApplications(q))
    ensures r.Respond? ==>
      && |r.body.rows| <= WindowOf(q.page, q.limit).take
      && r.body.pagination == PageInfoOf(|Where(users, (u: User) => UserSelected(UserFilterOf(q), u))|, q.page, q.limit)
      && forall i :: 0 <= i < |r.body.rows| ==>
           && (exists u :: u in users && UserSelected(UserFilterOf(q), u) && r.body.rows[i] == Summary(u, applications, CountsApplications(q)))
           && (r.body.rows[i].applicationCount.Some? <==> CountsApplications(q))
  {
    var f := UserFilterOf(q);
    match Paginate(users, (u: User) => UserSelected(f, u), q.page, q.limit)
    case Forward(e) => Forward(e)
    case Respond(code, listing) =>
      var rows := Summaries(listing.rows, applications, CountsApplications(q));
      assert forall i :: 0 <= i < |rows| ==>
        (rows[i] == Summary(listing.rows[i], applications, CountsApplications(q)) && listing.rows[i] in users && UserSelected(f, listing.rows[i]));
      Respond(code, Listing(rows, listing.pagination))
  }

  /** Registered roles are upper-case, so a query for the role that turns
      on the application count selects nobody. */
  lemma ApplicationCountsNeverListed(users: seq<User>, applications: map<nat, Application>, q: UserQuery)
    requires forall i :: 0 <= i < |users| ==> users[i].role in AuthController.RegistrationRoles
    requires CountsApplications(q)
    ensures GetUsers(users, applications, q).Respond? ==> GetUsers(users, applications, q).body.rows == []
  {
    WhereEmpty(users, (u: User) => UserSelected(UserFilterOf(q), u));
  }

  /** With neither filter supplied, every user is counted in the total. */
  lemma UnfilteredCountsEveryone(users: seq<User>, applications: map<nat, Application>, page: Option<nat>, limit: Option<nat>)
    ensures var r := GetUsers(users, applications, UserQuery(None, None, page, limit));
      r.Respond? ==> r.body.pagination.total == |users|
  {
    WhereAll(users, (u: User) => UserSelected(UserFilterOf(UserQuery(None, None, page, limit)), u));
  }

  // ---- getUserDetails ----

  /** The user with the relations included for its role; a relation not
      included is `None`. The full row is returned, hash included. */
  datatype UserDetails = UserDetails(
    user: User,
    company: Option<Option<Company>>,
    createdJobs: Option<map<nat, Job>>,
    applications: Option<map<nat, Application>>)

  function GetUserDetails(users: map<nat, User>, companies: map<nat, Company>, jobs: map<nat, Job>,
                          applications: map<nat, Application>, id: nat): (r: Response<UserDetails>)
    ensures id !in users <==> r == Forward(UserNotFound)
    ensures id in users ==> r.Respond? && r.statusCode == 200 && r.body.user == users[id]
    ensures r.Respond? ==> (r.body.company.Some? <==> users[id].role == "RECRUITER")
    ensures r.Respond? ==> (r.body.createdJobs.Some? <==> users[id].role == "RECRUITER")
    ensures r.Respond? ==> (r.body.applications.Some? <==> users[id].role == "JOBSEEKER")
    ensures r.Respond? && r.body.company.Some? ==>
      r.body.company.value == (if id in companies then Some(companies[id]) else None)
    ensures r.Respond? && r.body.createdJobs.Some? ==>
      forall j :: j in r.body.createdJobs.value <==> j in jobs && jobs[j].companyId == id
    ensures r.Respond? && r.body.applications.Some? ==>
      forall a :: a in r.body.applications.value <==> a in applications && applications[a].jobSeekerId == id
  {
    if id !in users then Forward(UserNotFound)
    else
      var u := users[id];
      var recruiter := u.role == "RECRUITER";
      Respond(200, UserDetails(
        u,
        if recruiter then Some(if id in companies then Some(companies[id]) else None) else None,
        if recruiter then Some(map j | j in jobs && jobs[j].companyId == id :: jobs[j]) else None,
        if u.role == "JOBSEEKER" then Some(map a | a in applications && applications[a].jobSeekerId == id :: applications[a]) else None))
  }

  /** No role gets both the recruiter and the job-seeker relations. */
  lemma DetailsIncludesDisjoint(users: map<nat, User>, companies: map<nat, Company>, jobs: map<nat, Job>,
                                applications: map<nat, Application>, id: nat)
    ensures var r := GetUserDetails(users, companies, jobs, applications, id);
      r.Respond? ==> !(r.body.company.Some? && r.body.applications.Some?)
  {
  }

  // ---- updateUserStatus ----

  /** `updateUserStatus`: only the named user's status changes. An omitted
      status leaves the row as it is; a non-string one is a validation
      error. */
  method UpdateUserStatus(db: Db, id: nat, body: map<string, Value>) returns (res: Response<User>)
    requires db.Valid()
    modifies db`users
    ensures db.Valid()
    ensures Get(body, "status").Some? && !body["status"].Str? ==>
      res == Forward(PrismaValidation) && db.users == old(db.users)
    ensures !(Get(body, "status").Some? && !body["status"].Str?) && id !in old(db.users) ==>
      res == Forward(RecordNotFound) && db.users == old(db.users)
    ensures Get(body, "status").None? && id in old(db.users) ==>
      res == Respond(200, old(db.users)[id]) && db.users == old(db.users)
    ensures Get(body, "status").Some? && body["status"].Str? && id in old(db.users) ==>
      var u := old(db.users)[id].(status := body["status"].s);
      db.users == old(db.users)[id := u] && res == Respond(200, u)
  {
    var status := Get(body, "status");
    if status.Some? && !status.value.Str? {
      return Forward(PrismaValidation);
    }
    if id !in db.users {
      return Forward(RecordNotFound);
    }
    var u := db.users[id];
    if status.Some? {
      u := u.(status := status.value.s);
      db.users := db.users[id := u];
    }
    res := Respond(200, u);
  }

  // ---- getSystemAnalytics ----

  /** How far back the analytics window starts from now. */
  datatype Offset = Days(days: nat) | Years(years: nat)

  const DefaultTimeRange := "30d"

  /** The `switch (timeRange)` with `timeRange` defaulting to `'30d'`. */
  function AnalyticsOffset(timeRange: Option<string>): (r: Offset)
    ensures r == Days(7) <==> timeRange == Some("7d")
    ensures r == Days(90) <==> timeRange == Some("90d")
    ensures r == Years(1) <==> timeRange == Some("1y")
    ensures r == Days(30) <==> timeRange !in {Some("7d"), Some("90d"), Some("1y")}
  {
    var t := if timeRange.Some? then timeRange.value else DefaultTimeRange;
    if t == "7d" then Days(7)
    else if t == "30d" then Days(30)
    else if t == "90d" then Days(90)
    else if t == "1y" then Years(1)
    else Days(30)
  }

  /** Every range the switch can produce is one of four. */
  lemma AnalyticsOffsetsFour(timeRange: Option<string>)
    ensures AnalyticsOffset(timeRange) in {Days(7), Days(30), Days(90), Years(1)}
    ensures AnalyticsOffset(None) == AnalyticsOffset(Some("30d")) == AnalyticsOffset(Some("")) == Days(30)
  {
  }

  // ---- content tables ----

  /** A raw-SQL parameter: `undefined` is bound as `NULL`. */
  function Param(v: Option<Value>): (r: Value)
    ensures v.None? ==> r == Null
    ensures v.Some? ==> r == v.value
  {
    if v.Some? then v.value else Null
  }

  /** `createCategory`, `createIndustry` and `createLocation`: one row with
      the body's name and description and status ACTIVE; the response is
      `$executeRaw`'s affected-row count, 1. */
  method CreateContent(db: Db, kind: ContentKind, body: map<string, Value>) returns (res: Response<nat>)
    requires db.Valid()
    modifies db`content
    ensures db.Valid()
    ensures var t := old(db.content)[kind];
      var item := ContentItem(Param(Get(body, "name")), Param(Get(body, "description")), Str("ACTIVE"));
      && t.nextId !in t.rows
      && db.content == old(db.content)[kind := ContentTable(t.rows[t.nextId := item], t.nextId + 1)]
      && res == Respond(201, 1)
  {
    var t := db.content[kind];
    var item := ContentItem(Param(Get(body, "name")), Param(Get(body, "description")), Str("ACTIVE"));
    db.content := db.content[kind := ContentTable(t.rows[t.nextId := item], t.nextId + 1)];
    res := Respond(201, 1);
  }

  /** The row `UPDATE ... SET name, description, status` writes: all three
      columns together, so an omitted one becomes `NULL`. */
  function ContentUpdate(body: map<string, Value>): (item: ContentItem)
    ensures "name" !in body ==> item.name == Null
    ensures "description" !in body ==> item.description == Null
    ensures "status" !in body ==> item.status == Null
    ensures item == ContentItem(Param(Get(body, "name")), Param(Get(body, "description")), Param(Get(body, "status")))
  {
    ContentItem(Param(Get(body, "name")), Param(Get(body, "description")), Param(Get(body, "status")))
  }

  /** `updateCategory`, `updateIndustry` and `updateLocation`: the
      response is the affected-row count, 1 when the row exists and 0
      otherwise; no other row changes. */
  method UpdateContent(db: Db, kind: ContentKind, id: nat, body: map<string, Value>) returns (res: Response<nat>)
    requires db.Valid()
    modifies db`content
    ensures db.Valid()
    ensures var t := old(db.content)[kind];
      && (id in t.rows ==>
            db.content == old(db.content)[kind := t.(rows := t.rows[id := ContentUpdate(body)])] && res == Respond(200, 1))
      && (id !in t.rows ==> db.content == old(db.content) && res == Respond(200, 0))
  {
    var t := db.content[kind];
    if id in t.rows {
      db.content := db.content[kind := t.(rows := t.rows[id := ContentUpdate(body)])];
      res := Respond(200, 1);
    } else {
      res := Respond(200, 0);
    }
  }

  // ---- updateSettings ----

  /** What one element of `settings` does: `setting.key` of `null` throws;
      an object with a string key upserts its value; any other element has
      no string key to insert. */
  datatype SettingRow = Upsert(key: string, value: Value) | Fails(error: Error)

  function SettingRowOf(v: Value): (r: SettingRow)
    ensures v.Null? ==> r == Fails(TypeError)
    ensures r.Upsert? <==> v.Obj? && Get(v.fields, "key").Some? && v.fields["key"].Str?
    ensures r.Upsert? ==> r.key == v.fields["key"].s && r.value == Param(Get(v.fields, "value"))
  {
    match v
    case Null => Fails(TypeError)
    case Obj(fields) =>
      if "key" in fields && fields["key"].Str? then Upsert(fields["key"].s, Param(Get(fields, "value")))
      else Fails(RawQueryFailed)
    case _ => Fails(RawQueryFailed)
  }

  /** The settings table after upserting the rows in order, stopping at the
      first that fails, with that failure. */
  function ApplySettings(settings: map<string, Value>, rows: seq<SettingRow>): (r: (map<string, Value>, Option<Error>))
    ensures settings.Keys <= r.0.Keys
    decreases |rows|
  {
    if rows == [] then (settings, None)
    else match rows[0]
      case Fails(e) => (settings, Some(e))
      case Upsert(k, v) => ApplySettings(settings[k := v], rows[1..])
  }

  /** The upserts succeed exactly when no row fails; a failure is that of
      the first failing row, and every row before it has stored its key. */
  lemma {:induction false} ApplySettingsStops(settings: map<string, Value>, rows: seq<SettingRow>)
    ensures var r := ApplySettings(settings, rows);
      r.1.None? <==> forall i :: 0 <= i < |rows| ==> rows[i].Upsert?
    ensures var r := ApplySettings(settings, rows);
      r.1.Some? ==>
        exists i :: 0 <= i < |rows| && rows[i] == Fails(r.1.value) && forall k :: 0 <= k < i ==> rows[k].Upsert?
    ensures var r := ApplySettings(settings, rows);
      forall i :: 0 <= i < |rows| && rows[i].Upsert? && (forall k :: 0 <= k < i ==> rows[k].Upsert?) ==> rows[i].key in r.0
    decreases |rows|
  {
    if rows != [] && rows[0].Upsert? {
      var rest := rows[1..];
      ApplySettingsStops(settings[rows[0].key := rows[0].value], rest);
      var r := ApplySettings(settings, rows);
      assert forall i :: 1 <= i < |rows| ==> rows[i] == rest[i - 1];
      if r.1.Some? {
        var i :| 0 <= i < |rest| && rest[i] == Fails(r.1.value) && forall k :: 0 <= k < i ==> rest[k].Upsert?;
        assert forall k :: 0 <= k < i + 1 ==> rows[k].Upsert? by {
          forall k | 0 <= k < i + 1 ensures rows[k].Upsert? {
            if k > 0 { assert rows[k] == rest[k - 1]; }
          }
        }
        assert rows[i + 1] == Fails(r.1.value);
      }
      forall i | 0 <= i < |rows| && rows[i].Upsert? && (forall k :: 0 <= k < i ==> rows[k].Upsert?)
        ensures rows[i].key in r.0
      {
        if i > 0 {
          assert rest[i - 1] == rows[i];
          assert forall k :: 0 <= k < i - 1 ==> rest[k].Upsert? by {
            forall k | 0 <= k < i - 1 ensures rest[k].Upsert? { assert rest[k] == rows[k + 1]; }
          }
        }
      }
    }
  }

  function SettingRows(items: seq<Value>): (r: seq<SettingRow>)
    ensures |r| == |items| && forall i :: 0 <= i < |items| ==> r[i] == SettingRowOf(items[i])
  {
    if items == [] then [] else [SettingRowOf(items[0])] + SettingRows(items[1..])
  }

  /** What `for (const setting of settings)` walks: the elements of an
      array, the one-character strings of a string, and nothing else is
      iterable. */
  function Iterated(v: Option<Value>): (r: Option<seq<Value>>)
    ensures r.Some? <==> v.Some? && (v.value.Arr? || v.value.Str?)
    ensures r.Some? && v.value.Arr? ==> r.value == v.value.items
    ensures r.Some? && v.value.Str? ==>
      |r.value| == |v.value.s| && forall i :: 0 <= i < |r.value| ==> r.value[i] == Str([v.value.s[i]])
  {
    match v
    case Some(Arr(items)) => Some(items)
    case Some(Str(s)) => Some(seq(|s|, i requires 0 <= i < |s| => Str([s[i]])))
    case _ => None
  }

  /** `updateSettings`: a `settings` that cannot be iterated is a
      `TypeError`; otherwise each element is upserted in order and the
      response lists one affected-row count (1) per element. A failing
      element stops the loop with the earlier upserts kept. */
  method UpdateSettings(db: Db, body: map<string, Value>) returns (res: Response<seq<nat>>)
    requires db.Valid()
    modifies db`settings
    ensures db.Valid()
    ensures Iterated(Get(body, "settings")).None? ==> res == Forward(TypeError) && db.settings == old(db.settings)
    ensures Iterated(Get(body, "settings")).Some? ==>
      var items := Iterated(Get(body, "settings")).value;
      var after := ApplySettings(old(db.settings), SettingRows(items));
      && db.settings == after.0
      && (after.1.None? ==> res == Respond(200, seq(|items|, _ => 1)))
      && (after.1.Some? ==> res == Forward(after.1.value))
  {
    var settings := Iterated(Get(body, "settings"));
    if settings.None? {
      return Forward(TypeError);
    }
    var items := settings.value;
    ghost var rows := SettingRows(items);
    var updated: seq<nat> := [];
    var i := 0;
    while i < |items|
      invariant 0 <= i <= |items|
      invariant ApplySettings(db.settings, rows[i..]) == ApplySettings(old(db.settings), rows)
      invariant updated == seq(i, _ => 1)
    {
      assert rows[i..] == [rows[i]] + rows[i + 1..];
      match SettingRowOf(items[i])
      case Fails(e) =>
        return Forward(e);
      case Upsert(k, v) =>
        db.settings := db.settings[k := v];
        updated := updated + [1];
      i := i + 1;
    }
    res := Respond(200, updated);
  }

  /** A non-empty string is iterated character by character, and the first
      character has no key, so nothing is stored; the empty string stores
      nothing and succeeds. */
  lemma StringSettingsFail(settings: map<string, Value>, s: string)
    ensures var r := ApplySettings(settings, SettingRows(Iterated(Some(Str(s))).value));
      r == (settings, if s == "" then None else Some(RawQueryFailed))
  {
  }

  /** When every row upserts, a listed key ends with its last listed value,
      unlisted keys keep theirs, and no other key appears. */
  lemma {:induction false} SettingsLastWins(settings: map<string, Value>, rows: seq<SettingRow>)
    requires forall i :: 0 <= i < |rows| ==> rows[i].Upsert?
    ensures ApplySettings(settings, rows).1 == None
    ensures var after := ApplySettings(settings, rows).0;
      && (forall i :: 0 <= i < |rows| && (forall j :: i < j < |rows| ==> rows[j].key != rows[i].key) ==>
            rows[i].key in after && after[rows[i].key] == rows[i].value)
      && (forall k :: k in settings && (forall i :: 0 <= i < |rows| ==> rows[i].key != k) ==> k in after && after[k] == settings[k])
      && (forall k :: k in after ==> k in settings || exists i :: 0 <= i < |rows| && rows[i].key == k)
    decreases |rows|
  {
    if rows != [] {
      var r := rows[0];
      var rest := rows[1..];
      assert forall i :: 0 <= i < |rest| ==> rest[i] == rows[i + 1];
      SettingsLastWins(settings[r.key := r.value], rest);
      var after := ApplySettings(settings, rows).0;
      assert after == ApplySettings(settings[r.key := r.value], rest).0;
      forall k | k in after ensures k in settings || exists i :: 0 <= i < |rows| && rows[i].key == k {
        if k !in settings && k != r.key {
          var i :| 0 <= i < |rest| && rest[i].key == k;
          assert rows[i + 1].key == k;
        }
      }
      forall i | 0 <= i < |rows| && (forall j :: i < j < |rows| ==> rows[j].key != rows[i].key)
        ensures rows[i].key in after && after[rows[i].key] == rows[i].value
      {
        if i > 0 {
          assert rest[i - 1] == rows[i];
          assert forall j :: i - 1 < j < |rest| ==> rest[j].key != rest[i - 1].key by {
            forall j | i - 1 < j < |rest| ensures rest[j].key != rest[i - 1].key {
              assert rest[j] == rows[j + 1];
            }
          }
        } else {
          assert forall j :: 0 <= j < |rest| ==> rest[j].key != r.key by {
            forall j | 0 <= j < |rest| ensures rest[j].key != r.key {
              assert rest[j] == rows[j + 1];
            }
          }
        }
      }
    }
  }
}
