/** The request validation of `validation.middleware.ts`. The zod schemas
    are written in a small schema language (strings with a minimum length
    and an optional email/url format, numbers with bounds, string enums,
    arrays, objects, optional fields), interpreted twice: `Accepts` says
    whether zod's `parse` succeeds, and `Issues` lists the issues zod
    reports, with their paths and zod's default messages, in the order zod
    finds them. `Validate` is the middleware: continue, or one 400 error
    whose message is the JSON text of the `{ path, message }` list. The
    email and url checks are predicate parameters. */
module Validation {
  import opened Common
  import opened Json
  import opened Strings
  import AuthController

  datatype Format = Plain | Email | Url

  datatype Field = Field(name: string, schema: Schema)

  datatype Schema =
    | ZString(minLength: nat, format: Format)
    | ZNumber(min: Option<nat>, max: Option<nat>)
    | ZEnum(options: seq<string>)
    | ZArray(element: Schema)
    | ZObject(fields: seq<Field>)
    | ZOptional(inner: Schema)

  /** `z.string().email()` and `z.string().url()`, as parameters. */
  datatype Checks = Checks(isEmail: string -> bool, isUrl: string -> bool)

  /** A segment of an issue path: an object key or an array index. */
  datatype Segment = Key(name: string) | Index(index: nat)

  datatype Issue = Issue(path: seq<Segment>, message: string)

  predicate FormatOk(f: Format, s: string, c: Checks) {
    match f
    case Plain => true
    case Email => c.isEmail(s)
    case Url => c.isUrl(s)
  }

  /** Whether zod's `parse` of the value (`None` is `undefined`) succeeds. */
  predicate Accepts(s: Schema, v: Option<Value>, c: Checks)
    ensures v.None? ==> (Accepts(s, v, c) <==> s.ZOptional?)
    decreases s
  {
    match s
    case ZOptional(inner) => v.None? || Accepts(inner, v, c)
    case ZString(minLength, f) =>
      v.Some? && v.value.Str? && Utf16Length(v.value.s) >= minLength && FormatOk(f, v.value.s, c)
    case ZNumber(lo, hi) =>
      v.Some? && v.value.Num? && (lo.Some? ==> v.value.n >= lo.value) && (hi.Some? ==> v.value.n <= hi.value)
    case ZEnum(options) => v.Some? && v.value.Str? && v.value.s in options
    case ZArray(e) =>
      v.Some? && v.value.Arr? && forall i :: 0 <= i < |v.value.items| ==> Accepts(e, Some(v.value.items[i]), c)
    case ZObject(fs) =>
      v.Some? && v.value.Obj? && forall j :: 0 <= j < |fs| ==> Accepts(fs[j].schema, Get(v.value.fields, fs[j].name), c)
  }

  // ---- zod's default messages ----

  const Required := "Required"

  function Expected(expected: string, v: Option<Value>): string {
    "Expected " + expected + ", received " + TypeName(v)
  }

  /** The listed options as zod prints them: `'A' | 'B'`. */
  function Quoted(options: seq<string>): string {
    if options == [] then ""
    else if |options| == 1 then "'" + options[0] + "'"
    else "'" + options[0] + "' | " + Quoted(options[1..])
  }

  function FormatMessage(f: Format): (m: string)
    ensures m == "" <==> f == Plain
  {
    match f
    case Plain => ""
    case Email => "Invalid email"
    case Url => "Invalid url"
  }

  function StringIssues(minLength: nat, f: Format, s: string, path: seq<Segment>, c: Checks): seq<Issue> {
    (if Utf16Length(s) >= minLength then []
     else [Issue(path, "String must contain at least " + NatToDecimal(minLength) + " character(s)")])
    + (if FormatOk(f, s, c) then [] else [Issue(path, FormatMessage(f))])
  }

  function NumberIssues(lo: Option<nat>, hi: Option<nat>, n: int, path: seq<Segment>): seq<Issue> {
    (if lo.Some? && n < lo.value
     then [Issue(path, "Number must be greater than or equal to " + NatToDecimal(lo.value))] else [])
    + (if hi.Some? && n > hi.value
       then [Issue(path, "Number must be less than or equal to " + NatToDecimal(hi.value))] else [])
  }

  /** The issues zod reports for the value at `path`. */
  function Issues(s: Schema, v: Option<Value>, path: seq<Segment>, c: Checks): (r: seq<Issue>)
    ensures forall k :: 0 <= k < |r| ==> |path| <= |r[k].path| && r[k].path[..|path|] == path
    decreases s, 0
  {
    if s.ZOptional? then
      (if v.None? then [] else Issues(s.inner, v, path, c))
    else if v.None? then [Issue(path, Required)]
    else
      match s
      case ZOptional(_) => []
      case ZString(minLength, f) =>
        if v.value.Str? then StringIssues(minLength, f, v.value.s, path, c) else [Issue(path, Expected("string", v))]
      case ZNumber(lo, hi) =>
        if v.value.Num? then NumberIssues(lo, hi, v.value.n, path) else [Issue(path, Expected("number", v))]
      case ZEnum(options) =>
        if !v.value.Str? then [Issue(path, Expected(Quoted(options), v))]
        else if v.value.s in options then []
        else [Issue(path, "Invalid enum value. Expected " + Quoted(options) + ", received '" + v.value.s + "'")]
      case ZArray(e) =>
        if v.value.Arr? then ItemIssues(e, v.value.items, path, c, 0) else [Issue(path, Expected("array", v))]
      case ZObject(fs) =>
        if v.value.Obj? then FieldIssues(fs, v.value.fields, path, c) else [Issue(path, Expected("object", v))]
  }

  function ItemIssues(e: Schema, items: seq<Value>, path: seq<Segment>, c: Checks, i: nat): (r: seq<Issue>)
    ensures forall k :: 0 <= k < |r| ==> |path| < |r[k].path| && r[k].path[..|path|] == path
    decreases e, 1, |items| - i
  {
    if i >= |items| then []
    else Issues(e, Some(items[i]), path + [Index(i)], c) + ItemIssues(e, items, path, c, i + 1)
  }

  function FieldIssues(fs: seq<Field>, m: map<string, Value>, path: seq<Segment>, c: Checks): (r: seq<Issue>)
    ensures forall k :: 0 <= k < |r| ==> |path| < |r[k].path| && r[k].path[..|path|] == path
    decreases fs
  {
    if fs == [] then []
    else Issues(fs[0].schema, Get(m, fs[0].name), path + [Key(fs[0].name)], c) + FieldIssues(fs[1..], m, path, c)
  }

  /** zod reports no issue exactly when the parse succeeds. */
  lemma {:induction false} IssuesEmptyIffAccepts(s: Schema, v: Option<Value>, path: seq<Segment>, c: Checks)
    ensures Issues(s, v, path, c) == [] <==> Accepts(s, v, c)
    decreases s, 0
  {
    match s
    case ZOptional(inner) =>
      if v.Some? { IssuesEmptyIffAccepts(inner, v, path, c); }
    case ZArray(e) =>
      if v.Some? && v.value.Arr? { ItemsEmptyIffAccepted(e, v.value.items, path, c, 0); }
    case ZObject(fs) =>
      if v.Some? && v.value.Obj? { FieldsEmptyIffAccepted(fs, v.value.fields, path, c); }
    case ZString(_, _) =>
    case ZNumber(_, _) =>
    case ZEnum(_) =>
  }

  lemma {:induction false} ItemsEmptyIffAccepted(e: Schema, items: seq<Value>, path: seq<Segment>, c: Checks, i: nat)
    ensures ItemIssues(e, items, path, c, i) == [] <==> forall k :: i <= k < |items| ==> Accepts(e, Some(items[k]), c)
    decreases e, 1, |items| - i
  {
    if i < |items| {
      IssuesEmptyIffAccepts(e, Some(items[i]), path + [Index(i)], c);
      ItemsEmptyIffAccepted(e, items, path, c, i + 1);
    }
  }

  lemma {:induction false} FieldsEmptyIffAccepted(fs: seq<Field>, m: map<string, Value>, path: seq<Segment>, c: Checks)
    ensures FieldIssues(fs, m, path, c) == [] <==> forall j :: 0 <= j < |fs| ==> Accepts(fs[j].schema, Get(m, fs[j].name), c)
    decreases fs
  {
    if fs != [] {
      IssuesEmptyIffAccepts(fs[0].schema, Get(m, fs[0].name), path + [Key(fs[0].name)], c);
      FieldsEmptyIffAccepted(fs[1..], m, path, c);
      assert forall j :: 1 <= j < |fs| ==> fs[1..][j - 1] == fs[j];
    }
  }

  // ---- formatting the issues ----

  function SegmentText(s: Segment): string {
    match s
    case Key(name) => name
    case Index(i) => NatToDecimal(i)
  }

  function SegmentTexts(path: seq<Segment>): (r: seq<string>)
    ensures |r| == |path| && forall i :: 0 <= i < |path| ==> r[i] == SegmentText(path[i])
  {
    if path == [] then [] else [SegmentText(path[0])] + SegmentTexts(path[1..])
  }

  /** `error.path.join('.')`. */
  function PathText(path: seq<Segment>): string {
    Join(SegmentTexts(path), '.')
  }

  /** When no key contains a dot, the joined path splits back into its
      segments. */
  lemma PathTextSplits(path: seq<Segment>)
    requires |path| >= 1
    requires forall i :: 0 <= i < |path| && path[i].Key? ==> '.' !in path[i].name
    ensures Split(PathText(path), '.') == SegmentTexts(path)
  {
    var texts := SegmentTexts(path);
    forall i | 0 <= i < |texts| ensures '.' !in texts[i] {
      if path[i].Index? {
        var d := NatToDecimal(path[i].index);
        assert forall k :: 0 <= k < |d| ==> IsDigit(d[k]);
      }
    }
    SplitJoin(texts, '.');
  }

  /** One `{ path, message }` entry of the error list. */
  datatype Entry = Entry(path: string, message: string)

  function Entries(issues: seq<Issue>): (r: seq<Entry>)
    ensures |r| == |issues|
    ensures forall i :: 0 <= i < |issues| ==> r[i] == Entry(PathText(issues[i].path), issues[i].message)
  {
    if issues == [] then [] else [Entry(PathText(issues[0].path), issues[0].message)] + Entries(issues[1..])
  }

  function HexDigit(d: nat): char
    requires d < 16
  {
    if d < 10 then DigitChar(d) else ('a' as int + d - 10) as char
  }

  /** `JSON.stringify` of one character inside a string literal. */
  function EscapeChar(ch: char): string {
    if ch == '"' then "\\\""
    else if ch == '\\' then "\\\\"
    else if ch == '\n' then "\\n"
    else if ch == '\r' then "\\r"
    else if ch == '\t' then "\\t"
    else if ch as int == 8 then "\\b"
    else if ch as int == 12 then "\\f"
    else if ch as int < 0x20 then "\\u00" + [HexDigit(ch as int / 16), HexDigit(ch as int % 16)]
    else [ch]
  }

  function Escape(s: string): string {
    if s == [] then "" else EscapeChar(s[0]) + Escape(s[1..])
  }

  function Quote(s: string): string {
    "\"" + Escape(s) + "\""
  }

  function EntryJson(e: Entry): string {
    "{\"path\":" + Quote(e.path) + ",\"message\":" + Quote(e.message) + "}"
  }

  function EntriesJson(es: seq<Entry>): string {
    if es == [] then "" else if |es| == 1 then EntryJson(es[0]) else EntryJson(es[0]) + "," + EntriesJson(es[1..])
  }

  /** `JSON.stringify(errors)`. */
  function ErrorsJson(es: seq<Entry>): string {
    "[" + EntriesJson(es) + "]"
  }

  /** The object `{ body, query, params }` handed to `schema.parse`; a part
      that is `undefined` is left out. */
  function ParseInput(body: Option<Value>, query: Option<Value>, params: Option<Value>): Value {
    Obj((if body.Some? then map["body" := body.value] else map[])
        + (if query.Some? then map["query" := query.value] else map[])
        + (if params.Some? then map["params" := params.value] else map[]))
  }

  /** `validate(schema)` applied to a request. */
  function Validate(schema: Schema, body: Option<Value>, query: Option<Value>, params: Option<Value>, c: Checks): (r: Outcome)
    ensures r == Continue <==> Accepts(schema, Some(ParseInput(body, query, params)), c)
    ensures r.Fail? ==>
      var issues := Issues(schema, Some(ParseInput(body, query, params)), [], c);
      && issues != []
      && r.error == AppError(ErrorsJson(Entries(issues)), 400)
  {
    var input := Some(ParseInput(body, query, params));
    IssuesEmptyIffAccepts(schema, input, [], c);
    var issues := Issues(schema, input, [], c);
    if issues == [] then Continue else Fail(AppError(ErrorsJson(Entries(issues)), 400))
  }

  // ---- the schemas ----

  const JobTypes := ["FULL_TIME", "PART_TIME", "CONTRACT", "INTERNSHIP"]
  const ExperienceLevels := ["ENTRY", "MID", "SENIOR", "EXPERT"]
  const LocationTypes := ["REMOTE", "HYBRID", "ON_SITE"]
  const CompanySizes := ["SMALL", "MEDIUM", "LARGE", "ENTERPRISE"]
  const ApplicationStatuses := ["PENDING", "SHORTLISTED", "REJECTED", "HIRED"]
  const RegisterRoles := ["jobseeker", "recruiter", "admin"]

  const AnyString := ZString(0, Plain)
  const StringArray := ZArray(AnyString)
  const NonNegative := ZNumber(Some(0), None)

  /** `z.object({ body: z.object(fields) })`. */
  function BodyOnly(fields: seq<Field>): Schema {
    ZObject([Field("body", ZObject(fields))])
  }

  /** `z.object({ params: { id: z.string().transform(Number) }, body })`. */
  function WithIdParam(fields: seq<Field>): Schema {
    ZObject([Field("params", ZObject([Field("id", AnyString)])), Field("body", ZObject(fields))])
  }

  /** A body-only schema accepts a request exactly when its body object does. */
  lemma BodyOnlyAccepts(fields: seq<Field>, b: map<string, Value>, c: Checks)
    ensures Accepts(BodyOnly(fields), Some(ParseInput(Some(Obj(b)), None, None)), c) <==> Accepts(ZObject(fields), Some(Obj(b)), c)
  {
    var top := map["body" := Obj(b)];
    assert ParseInput(Some(Obj(b)), None, None) == Obj(top);
    assert BodyOnly(fields).fields[0] == Field("body", ZObject(fields));
    assert Get(top, "body") == Some(Obj(b));
  }

  /** With a string `id` parameter, such a schema accepts a request exactly
      when its body object does. */
  lemma WithIdParamAccepts(fields: seq<Field>, id: string, b: map<string, Value>, c: Checks)
    ensures var input := ParseInput(Some(Obj(b)), None, Some(Obj(map["id" := Str(id)])));
      Accepts(WithIdParam(fields), Some(input), c) <==> Accepts(ZObject(fields), Some(Obj(b)), c)
  {
    var params := Obj(map["id" := Str(id)]);
    var top := map["body" := Obj(b), "params" := params];
    assert ParseInput(Some(Obj(b)), None, Some(params)) == Obj(top);
    var fs := WithIdParam(fields).fields;
    assert fs[0] == Field("params", ZObject([Field("id", AnyString)])) && fs[1] == Field("body", ZObject(fields));
    assert Get(top, "params") == Some(params) && Get(top, "body") == Some(Obj(b));
    assert Accepts(ZObject([Field("id", AnyString)]), Some(params), c) by {
      assert Get(params.fields, "id") == Some(Str(id));
    }
  }

  /** Every field made `.optional()`. */
  function Optionalize(fs: seq<Field>): (r: seq<Field>)
    ensures |r| == |fs|
    ensures forall j :: 0 <= j < |fs| ==> r[j] == Field(fs[j].name, ZOptional(fs[j].schema))
  {
    if fs == [] then [] else [Field(fs[0].name, ZOptional(fs[0].schema))] + Optionalize(fs[1..])
  }

  const LoginSchema := BodyOnly([Field("email", ZString(0, Email)), Field("password", ZString(8, Plain))])

  const RegisterSchema := BodyOnly([
    Field("email", ZString(0, Email)),
    Field("password", ZString(8, Plain)),
    Field("role", ZEnum(RegisterRoles))])

  const SalarySchema := ZObject([Field("min", NonNegative), Field("max", NonNegative)])

  const JobFields := [
    Field("title", ZString(3, Plain)),
    Field("description", ZString(10, Plain)),
    Field("requirements", StringArray),
    Field("responsibilities", StringArray),
    Field("salaryRange", SalarySchema),
    Field("jobType", ZEnum(JobTypes)),
    Field("experienceLevel", ZEnum(ExperienceLevels)),
    Field("locationType", ZEnum(LocationTypes)),
    Field("requiredSkills", StringArray)]

  const CreateJobSchema := BodyOnly(JobFields)

  const UpdateJobSchema := WithIdParam(Optionalize(JobFields))

  /** `updateCompany`, with the current calendar year as a parameter. */
  function UpdateCompanySchema(currentYear: nat): (s: Schema)
    ensures s.ZObject? && |s.fields| == 1 && s.fields[0].name == "body" && s.fields[0].schema.ZObject?
    ensures |s.fields[0].schema.fields| == 10
    ensures forall k :: 0 <= k < 10 ==> !s.fields[0].schema.fields[k].schema.ZOptional?
    ensures forall k :: 7 <= k < 10 ==> s.fields[0].schema.fields[k].schema == StringArray
  {
    BodyOnly([
      Field("name", ZString(2, Plain)),
      Field("industry", ZString(2, Plain)),
      Field("size", ZEnum(CompanySizes)),
      Field("foundingYear", ZNumber(Some(1900), Some(currentYear))),
      Field("website", ZString(0, Url)),
      Field("description", ZString(10, Plain)),
      Field("mission", ZString(10, Plain)),
      Field("values", StringArray),
      Field("benefits", StringArray),
      Field("locations", StringArray)])
  }

  const CreateApplicationSchema := BodyOnly([Field("jobId", ZNumber(None, None)), Field("coverLetter", ZString(10, Plain))])

  const UpdateApplicationStatusSchema := WithIdParam([Field("status", ZEnum(ApplicationStatuses))])

  function HistoryEntry(firstName: string, secondName: string): Schema {
    ZObject([
      Field(firstName, AnyString),
      Field(secondName, AnyString),
      Field("startDate", AnyString),
      Field("endDate", ZOptional(AnyString)),
      Field("description", AnyString)])
  }

  const UpdateProfileSchema := BodyOnly([
    Field("firstName", ZString(2, Plain)),
    Field("lastName", ZString(2, Plain)),
    Field("phone", ZString(10, Plain)),
    Field("location", ZString(2, Plain)),
    Field("bio", ZString(10, Plain)),
    Field("skills", StringArray),
    Field("experience", ZArray(HistoryEntry("title", "company"))),
    Field("education", ZArray(HistoryEntry("degree", "institution")))])

  // ---- what the schemas mean ----

  /** A string property whose JavaScript length is at least `n`. */
  predicate StrAtLeast(b: map<string, Value>, key: string, n: nat) {
    key in b && b[key].Str? && Utf16Length(b[key].s) >= n
  }

  predicate StringList(b: map<string, Value>, key: string) {
    key in b && b[key].Arr? && forall i :: 0 <= i < |b[key].items| ==> b[key].items[i].Str?
  }

  predicate OneOf(b: map<string, Value>, key: string, options: seq<string>) {
    key in b && b[key].Str? && b[key].s in options
  }

  /** Both bounds present and non-negative; nothing relates them. */
  predicate SalaryOk(v: Value) {
    && v.Obj?
    && "min" in v.fields && v.fields["min"].Num? && v.fields["min"].n >= 0
    && "max" in v.fields && v.fields["max"].Num? && v.fields["max"].n >= 0
  }

  /** The `createJob` body constraints, field by field. */
  predicate CreateJobBodyOk(b: map<string, Value>) {
    && StrAtLeast(b, "title", 3)
    && StrAtLeast(b, "description", 10)
    && StringList(b, "requirements")
    && StringList(b, "responsibilities")
    && "salaryRange" in b && SalaryOk(b["salaryRange"])
    && OneOf(b, "jobType", JobTypes)
    && OneOf(b, "experienceLevel", ExperienceLevels)
    && OneOf(b, "locationType", LocationTypes)
    && StringList(b, "requiredSkills")
  }

  lemma StringsMeaning(v: Option<Value>, c: Checks)
    ensures Accepts(StringArray, v, c) <==> v.Some? && v.value.Arr? && forall i :: 0 <= i < |v.value.items| ==> v.value.items[i].Str?
  {
  }

  lemma SalaryMeaning(v: Value, c: Checks)
    ensures Accepts(SalarySchema, Some(v), c) <==> SalaryOk(v)
  {
    if v.Obj? {
      var fs := SalarySchema.fields;
      assert fs[0].name == "min" && fs[1].name == "max";
      if SalaryOk(v) {
        forall j | 0 <= j < |fs| ensures Accepts(fs[j].schema, Get(v.fields, fs[j].name), c) {
        }
      }
    }
  }

  /** `createJob` accepts a body exactly when every field constraint holds. */
  lemma CreateJobMeaning(b: map<string, Value>, c: Checks)
    ensures Accepts(CreateJobSchema, Some(ParseInput(Some(Obj(b)), None, None)), c) <==> CreateJobBodyOk(b)
  {
    BodyOnlyAccepts(JobFields, b, c);
    forall j | 0 <= j < 9 ensures Accepts(JobFields[j].schema, Get(b, JobFields[j].name), c) <==> JobFieldOk(j, b) {
      JobFieldMeaning(j, b, c);
    }
    assert CreateJobBodyOk(b) <==> forall j :: 0 <= j < 9 ==> JobFieldOk(j, b) by {
      if CreateJobBodyOk(b) {
        forall j | 0 <= j < 9 ensures JobFieldOk(j, b) {
        }
      }
      if forall j :: 0 <= j < 9 ==> JobFieldOk(j, b) {
        assert JobFieldOk(0, b) && JobFieldOk(1, b) && JobFieldOk(2, b) && JobFieldOk(3, b) && JobFieldOk(4, b);
        assert JobFieldOk(5, b) && JobFieldOk(6, b) && JobFieldOk(7, b) && JobFieldOk(8, b);
      }
    }
  }

  /** The constraint `CreateJobBodyOk` puts on field `j` of `JobFields`. */
  predicate JobFieldOk(j: nat, b: map<string, Value>) {
    if j == 0 then StrAtLeast(b, "title", 3)
    else if j == 1 then StrAtLeast(b, "description", 10)
    else if j == 2 then StringList(b, "requirements")
    else if j == 3 then StringList(b, "responsibilities")
    else if j == 4 then "salaryRange" in b && SalaryOk(b["salaryRange"])
    else if j == 5 then OneOf(b, "jobType", JobTypes)
    else if j == 6 then OneOf(b, "experienceLevel", ExperienceLevels)
    else if j == 7 then OneOf(b, "locationType", LocationTypes)
    else StringList(b, "requiredSkills")
  }

  lemma JobFieldMeaning(j: nat, b: map<string, Value>, c: Checks)
    requires j < 9
    ensures Accepts(JobFields[j].schema, Get(b, JobFields[j].name), c) <==> JobFieldOk(j, b)
  {
    if j == 4 && "salaryRange" in b { SalaryMeaning(b["salaryRange"], c); }
  }

  /** zod measures a title in UTF-16 code units, so an emoji and one letter
      already meet `min(3)`. */
  lemma EmojiTitleLongEnough(c: Checks)
    ensures Accepts(JobFields[0].schema, Some(Str("\U{1F600}a")), c)
  {
    EmojiUtf16Length();
  }

  /** Salary bounds are checked separately: a minimum above the maximum is
      accepted. */
  lemma SalaryBoundsUnrelated(lo: nat, hi: nat, c: Checks)
    ensures Accepts(SalarySchema, Some(Obj(map["min" := Num(lo), "max" := Num(hi)])), c)
  {
    SalaryMeaning(Obj(map["min" := Num(lo), "max" := Num(hi)]), c);
  }

  /** An all-optional object accepts a body exactly when each field the body
      carries satisfies its own schema. */
  lemma {:induction false} OptionalizedMeaning(fs: seq<Field>, b: map<string, Value>, c: Checks)
    ensures Accepts(ZObject(Optionalize(fs)), Some(Obj(b)), c) <==>
      forall j :: 0 <= j < |fs| && fs[j].name in b ==> Accepts(fs[j].schema, Some(b[fs[j].name]), c)
  {
    var os := Optionalize(fs);
    assert forall j :: 0 <= j < |fs| ==> os[j].name == fs[j].name && os[j].schema == ZOptional(fs[j].schema);
  }

  /** `updateJob` accepts the empty body, and any field it does carry must
      satisfy the `createJob` constraint for that field. */
  lemma UpdateJobMeaning(id: string, b: map<string, Value>, c: Checks)
    ensures var input := ParseInput(Some(Obj(b)), None, Some(Obj(map["id" := Str(id)])));
      Accepts(UpdateJobSchema, Some(input), c) <==>
        forall j :: 0 <= j < |JobFields| && JobFields[j].name in b ==> Accepts(JobFields[j].schema, Some(b[JobFields[j].name]), c)
    ensures Accepts(UpdateJobSchema, Some(ParseInput(Some(Obj(map[])), None, Some(Obj(map["id" := Str(id)])))), c)
  {
    WithIdParamAccepts(Optionalize(JobFields), id, b, c);
    WithIdParamAccepts(Optionalize(JobFields), id, map[], c);
    OptionalizedMeaning(JobFields, b, c);
    OptionalizedMeaning(JobFields, map[], c);
  }

  /** `updateApplicationStatus` accepts exactly the four statuses. */
  lemma ApplicationStatusMeaning(id: string, status: Value, c: Checks)
    ensures var input := ParseInput(Some(Obj(map["status" := status])), None, Some(Obj(map["id" := Str(id)])));
      Accepts(UpdateApplicationStatusSchema, Some(input), c) <==>
        status in [Str("PENDING"), Str("SHORTLISTED"), Str("REJECTED"), Str("HIRED")]
  {
    var body := map["status" := status];
    var fields := [Field("status", ZEnum(ApplicationStatuses))];
    WithIdParamAccepts(fields, id, body, c);
    assert Get(body, "status") == Some(status);
    SingleFieldAccepts(fields[0], body, c);
    StatusLiterals(status);
  }

  /** An object schema of one field accepts exactly what that field's
      schema accepts of the property. */
  lemma SingleFieldAccepts(f: Field, m: map<string, Value>, c: Checks)
    ensures Accepts(ZObject([f]), Some(Obj(m)), c) <==> Accepts(f.schema, Get(m, f.name), c)
  {
    assert [f][0] == f;
  }

  lemma StatusLiterals(status: Value)
    ensures status.Str? && status.s in ApplicationStatuses <==>
      status in [Str("PENDING"), Str("SHORTLISTED"), Str("REJECTED"), Str("HIRED")]
  {
  }

  /** `foundingYear` must lie in [1900, current year]. */
  lemma FoundingYearRange(year: int, currentYear: nat, c: Checks)
    ensures Accepts(UpdateCompanySchema(currentYear).fields[0].schema.fields[3].schema, Some(Num(year)), c)
      <==> 1900 <= year <= currentYear
  {
  }

  /** The zod `register` schema accepts only lower-case roles, the
      express-validator rules of the registration route only upper-case
      ones, so no role passes both. */
  lemma RegisterRolesDisagree(role: string)
    ensures !(role in RegisterRoles && role in AuthController.RegistrationRoles)
  {
  }

  /** `login` demands passwords of at least 8 characters. */
  lemma LoginPasswordLength(email: string, password: string, c: Checks)
    requires c.isEmail(email)
    ensures var input := ParseInput(Some(Obj(map["email" := Str(email), "password" := Str(password)])), None, None);
      Accepts(LoginSchema, Some(input), c) <==> Utf16Length(password) >= 8
  {
    var body := map["email" := Str(email), "password" := Str(password)];
    var fs := [Field("email", ZString(0, Email)), Field("password", ZString(8, Plain))];
    assert LoginSchema == BodyOnly(fs);
    BodyOnlyAccepts(fs, body, c);
    TwoFieldsAccept(fs[0], fs[1], body, c);
    assert Accepts(fs[0].schema, Get(body, fs[0].name), c);
    assert Accepts(fs[1].schema, Get(body, fs[1].name), c) <==> Utf16Length(password) >= 8;
  }

  /** An object schema of two fields accepts exactly what both fields'
      schemas accept of their properties. */
  lemma TwoFieldsAccept(f: Field, g: Field, m: map<string, Value>, c: Checks)
    ensures Accepts(ZObject([f, g]), Some(Obj(m)), c)
      <==> Accepts(f.schema, Get(m, f.name), c) && Accepts(g.schema, Get(m, g.name), c)
  {
    var fs := [f, g];
    assert fs[0] == f && fs[1] == g;
  }
}
