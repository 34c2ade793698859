/** The request hygiene of `security.middleware.ts`: the tag stripper that
    `xssProtection` applies to every top-level string field of the body and
    the query, the Content-Length limit, and the API-key check. */
module Security {
  import opened Common
  import opened Json
  import opened Strings
  import opened Store

  /** `s.replace(/<[^>]*>/g, '')`: scanning left to right, a `<` that has a
      `>` somewhere after it starts a match that ends at the first such `>`,
      and the match is removed; scanning resumes after it. Any other
      character is kept. */
  function StripTags(s: string): (r: string)
    ensures |r| <= |s|
    decreases |s|
  {
    if s == [] then []
    else if s[0] == '<' && '>' in s[1..] then
      var close := IndexOf(s[1..], '>');
      StripTags(s[close + 2..])
    else [s[0]] + StripTags(s[1..])
  }

  /** No `<` of `s` has a `>` anywhere after it: nothing left to match. */
  ghost predicate TagFree(s: string) {
    forall i, j :: 0 <= i < j < |s| && s[i] == '<' ==> s[j] != '>'
  }

  lemma {:induction false} NoCloseUnchanged(s: string)
    requires '>' !in s
    ensures StripTags(s) == s
    decreases |s|
  {
    if s != [] {
      assert '>' !in s[1..];
      NoCloseUnchanged(s[1..]);
    }
  }

  /** After stripping, no `<` is followed later by a `>`. */
  lemma {:induction false} StripLeavesTagFree(s: string)
    ensures TagFree(StripTags(s))
    decreases |s|
  {
    if s == [] {
    } else if s[0] == '<' && '>' in s[1..] {
      var close := IndexOf(s[1..], '>');
      StripLeavesTagFree(s[close + 2..]);
    } else if s[0] == '<' {
      NoCloseUnchanged(s[1..]);
      assert StripTags(s) == s;
    } else {
      StripLeavesTagFree(s[1..]);
      var r := StripTags(s);
      assert r == [s[0]] + StripTags(s[1..]);
      forall i, j | 0 <= i < j < |r| && r[i] == '<' ensures r[j] != '>' {
        assert i > 0;
        assert r[i] == StripTags(s[1..])[i - 1] && r[j] == StripTags(s[1..])[j - 1];
      }
    }
  }

  /** A string with nothing to match is left alone. */
  lemma {:induction false} TagFreeUnchanged(s: string)
    requires TagFree(s)
    ensures StripTags(s) == s
    decreases |s|
  {
    if s != [] {
      if s[0] == '<' {
        assert '>' !in s[1..] by {
          forall j | 0 <= j < |s[1..]| ensures s[1..][j] != '>' {
            assert s[j + 1] == s[1..][j];
          }
        }
      }
      assert TagFree(s[1..]) by {
        forall i, j | 0 <= i < j < |s[1..]| && s[1..][i] == '<' ensures s[1..][j] != '>' {
          assert s[1..][i] == s[i + 1] && s[1..][j] == s[j + 1];
        }
      }
      TagFreeUnchanged(s[1..]);
    }
  }

  lemma StripIdempotent(s: string)
    ensures StripTags(StripTags(s)) == StripTags(s)
  {
    StripLeavesTagFree(s);
    TagFreeUnchanged(StripTags(s));
  }

  /** A string without `<` is left alone. */
  lemma NoOpenUnchanged(s: string)
    requires '<' !in s
    ensures StripTags(s) == s
  {
    TagFreeUnchanged(s);
  }

  /** One tag after tag-free text is removed whole and the rest is
      stripped on its own: the matches do not overlap. */
  lemma {:induction false} StripOneTag(text: string, inner: string, rest: string)
    requires '<' !in text && '>' !in inner
    ensures StripTags(text + ['<'] + inner + ['>'] + rest) == text + StripTags(rest)
    decreases |text|
  {
    var s := text + ['<'] + inner + ['>'] + rest;
    if text == [] {
      assert s[1..] == inner + ['>'] + rest;
      IndexOfAfterFree(inner, '>', rest);
      assert s[|inner| + 2..] == rest;
    } else {
      assert s[1..] == text[1..] + ['<'] + inner + ['>'] + rest;
      StripOneTag(text[1..], inner, rest);
    }
  }

  /** What `xssProtection` does to one field value. */
  function SanitizeValue(v: Value): (r: Value)
    ensures !v.Str? ==> r == v
    ensures v.Str? ==> r.Str? && r.s == StripTags(v.s) && |r.s| <= |v.s|
    ensures v.Str? ==> TagFree(r.s)
  {
    match v
    case Str(s) => StripLeavesTagFree(s); Str(StripTags(s))
    case _ => v
  }

  /** What `xssProtection` does to a body or query object: each top-level
      string is stripped; other values, nested objects included, and the
      set of keys stay as they are. */
  function SanitizeFields(m: map<string, Value>): (r: map<string, Value>)
    ensures r.Keys == m.Keys
    ensures forall k :: k in m && !m[k].Str? ==> r[k] == m[k]
    ensures forall k :: k in m && m[k].Str? ==> r[k] == Str(StripTags(m[k].s)) && |r[k].s| <= |m[k].s|
  {
    map k | k in m :: SanitizeValue(m[k])
  }

  lemma SanitizeIdempotent(m: map<string, Value>)
    ensures SanitizeFields(SanitizeFields(m)) == SanitizeFields(m)
  {
    forall k | k in m && m[k].Str? ensures StripTags(StripTags(m[k].s)) == StripTags(m[k].s) {
      StripIdempotent(m[k].s);
    }
  }

  /** `xssProtection`: rewrites the body's and then the query's string
      fields in place, one key at a time, then continues. */
  method XssProtection(req: Request) returns (outcome: Outcome)
    modifies req`body, req`query
    ensures outcome == Continue
    ensures req.body == (if old(req.body).Some? then Some(SanitizeFields(old(req.body).value)) else None)
    ensures req.query == (if old(req.query).Some? then Some(SanitizeFields(old(req.query).value)) else None)
  {
    if req.body.Some? {
      var keys := req.body.value.Keys;
      while keys != {}
        invariant req.body.Some? && req.body.value.Keys == old(req.body).value.Keys
        invariant req.query == old(req.query)
        invariant keys <= req.body.value.Keys
        invariant forall k :: k in keys ==> req.body.value[k] == old(req.body).value[k]
        invariant forall k :: k in req.body.value && k !in keys ==> req.body.value[k] == SanitizeValue(old(req.body).value[k])
        decreases keys
      {
        var k :| k in keys;
        var v := req.body.value[k];
        if v.Str? {
          req.body := Some(req.body.value[k := Str(StripTags(v.s))]);
        }
        keys := keys - {k};
      }
      assert req.body.value == SanitizeFields(old(req.body).value);
    }
    if req.query.Some? {
      var keys := req.query.value.Keys;
      while keys != {}
        invariant req.query.Some? && req.query.value.Keys == old(req.query).value.Keys
        invariant req.body == (if old(req.body).Some? then Some(SanitizeFields(old(req.body).value)) else None)
        invariant keys <= req.query.value.Keys
        invariant forall k :: k in keys ==> req.query.value[k] == old(req.query).value[k]
        invariant forall k :: k in req.query.value && k !in keys ==> req.query.value[k] == SanitizeValue(old(req.query).value[k])
        decreases keys
      {
        var k :| k in keys;
        var v := req.query.value[k];
        if v.Str? {
          req.query := Some(req.query.value[k := Str(StripTags(v.s))]);
        }
        keys := keys - {k};
      }
      assert req.query.value == SanitizeFields(old(req.query).value);
    }
    outcome := Continue;
  }

  const MaxRequestSize := 10 * 1024 * 1024
  const TooLarge := AppError("Request entity too large", 413)
  const InvalidApiKey := AppError("Invalid API key", 401)

  /** `requestSizeLimit` on the Content-Length header: a length that parses
      to more than 10 MiB is refused; an absent, empty or unparsable one
      continues. */
  function RequestSizeLimit(contentLength: Option<string>): (r: Outcome)
    ensures r == Continue || r == Fail(TooLarge)
    ensures r == Fail(TooLarge) <==>
      contentLength.Some? && ParseIntPrefix(contentLength.value).Some?
      && ParseIntPrefix(contentLength.value).value > MaxRequestSize
  {
    if contentLength.Some? && contentLength.value != "" then
      match ParseIntPrefix(contentLength.value)
      case Some(n) => if n > MaxRequestSize then Fail(TooLarge) else Continue
      case None => Continue
    else Continue
  }

  /** For a length written in decimal, the limit is inclusive. */
  lemma SizeLimitBoundary(n: nat)
    ensures RequestSizeLimit(Some(NatToDecimal(n))) == Continue <==> n <= 10485760
  {
    ParseIntOfDecimal(n);
  }

  /** `validateApiKey`: the `x-api-key` header must be present, non-empty
      and equal to the configured key; with no key configured, every
      request is refused. */
  function ValidateApiKey(apiKey: Option<string>, configured: Option<string>): (r: Outcome)
    ensures r == Continue || r == Fail(InvalidApiKey)
    ensures r == Continue <==> apiKey.Some? && apiKey.value != "" && configured == apiKey
    ensures configured.None? ==> r == Fail(InvalidApiKey)
  {
    if apiKey.None? || apiKey.value == "" || configured != apiKey then Fail(InvalidApiKey) else Continue
  }
}
