/**
 * The Flask frontend: reading a boolean setting, building the backend URL from the
 * environment, the security headers added to every response, and the page and status
 * rendered for a fetch of a phrase.
 */
module Frontend {
  import opened Wrappers
  import opened Text
  import opened Json

  // ---------------------------------------------------------------------------------------
  // Boolean settings

  /** The spellings `_as_bool` reads as true, once trimmed and lower-cased. */
  const TrueWords: set<string> := {"1", "true", "yes", "on"}

  /** `_as_bool(value, default)`: an unset value gives the default. */
  function AsBool(value: Option<string>, default: bool): bool {
    match value
    case None => default
    case Some(v) => Lower(Strip(v)) in TrueWords
  }

  /** The default decides the result exactly when the value is unset. */
  lemma AsBoolDefault(value: Option<string>, default: bool)
    ensures value.None? ==> AsBool(value, default) == default
    ensures value.Some? ==> AsBool(value, true) == AsBool(value, false)
    ensures value.Some? ==> (AsBool(value, default) <==> Lower(Strip(value.value)) in TrueWords)
  {
  }

  /** The empty string, and a value of whitespace only, read as false whatever the default. */
  lemma AsBoolBlankFalse(v: string, default: bool)
    requires forall i :: 0 <= i < |v| ==> IsSpace(v[i])
    ensures !AsBool(Some(v), default)
  {
    assert Lower(Strip(v)) == [] by {
      StripBlank(v);
    }
    assert [] !in TrueWords;
  }

  lemma StripBlank(v: string)
    requires forall i :: 0 <= i < |v| ==> IsSpace(v[i])
    ensures Strip(v) == []
  {
    TrimStartOfRemoved(v, Whitespace);
  }

  /** Whitespace around the value does not matter. */
  lemma AsBoolPadding(p: string, v: string, q: string, default: bool)
    requires forall i :: 0 <= i < |p| ==> IsSpace(p[i])
    requires forall i :: 0 <= i < |q| ==> IsSpace(q[i])
    ensures AsBool(Some(p + v + q), default) == AsBool(Some(v), default)
  {
    StripPadding(p, v, q, Whitespace);
  }

  /** Each of the four spellings reads as true, whatever whitespace surrounds it. */
  lemma AsBoolAccepts(p: string, w: string, q: string, default: bool)
    requires w in TrueWords
    requires forall i :: 0 <= i < |p| ==> IsSpace(p[i])
    requires forall i :: 0 <= i < |q| ==> IsSpace(q[i])
    ensures AsBool(Some(p + w + q), default)
  {
    AsBoolPadding(p, w, q, default);
    TrueWordPlain(w);
  }

  lemma TrueWordPlain(w: string)
    requires w in TrueWords
    ensures Lower(Strip(w)) == w
  {
    assert PlainWord(w);
    PlainStrip(w);
    PlainLower(w);
  }

  /** Lower-case letters and digits only. */
  predicate PlainWord(w: string) {
    w != [] && forall i :: 0 <= i < |w| ==> 'a' <= w[i] <= 'z' || IsDigit(w[i])
  }

  lemma PlainStrip(w: string)
    requires PlainWord(w)
    ensures Strip(w) == w
  {
    StripUnchanged(w, Whitespace);
  }

  lemma PlainLower(w: string)
    requires PlainWord(w)
    ensures Lower(w) == w
  {
    LowerUnchanged(w);
  }

  /** The case of the letters does not matter. */
  lemma AsBoolIgnoresCase(v: string, default: bool)
    ensures AsBool(Some(Lower(v)), default) == AsBool(Some(v), default)
  {
    StripLower(v);
    LowerUnchanged(Lower(Strip(v)));
  }

  lemma LowerTail(s: string)
    requires s != []
    ensures Lower(s)[1..] == Lower(s[1..])
    ensures Lower(s)[..|s| - 1] == Lower(s[..|s| - 1])
  {
  }

  /** Lower-casing and stripping whitespace can be done in either order. */
  lemma StripLower(s: string)
    ensures Strip(Lower(s)) == Lower(Strip(s))
  {
    TrimStartLower(s);
    TrimEndLower(TrimStart(s, Whitespace));
  }

  lemma {:induction false} TrimStartLower(s: string)
    ensures TrimStart(Lower(s), Whitespace) == Lower(TrimStart(s, Whitespace))
  {
    if s != [] {
      var l := Lower(s);
      assert IsSpace(l[0]) == IsSpace(s[0]) by {
        assert l[0] == LowerChar(s[0]);
      }
      if IsSpace(s[0]) {
        LowerTail(s);
        assert TrimStart(l, Whitespace) == TrimStart(l[1..], Whitespace);
        assert TrimStart(s, Whitespace) == TrimStart(s[1..], Whitespace);
        TrimStartLower(s[1..]);
      }
    }
  }

  lemma {:induction false} TrimEndLower(s: string)
    ensures TrimEnd(Lower(s), Whitespace) == Lower(TrimEnd(s, Whitespace))
  {
    if s != [] {
      var n := |s| - 1;
      var l := Lower(s);
      assert IsSpace(l[n]) == IsSpace(s[n]) by {
        assert l[n] == LowerChar(s[n]);
      }
      if IsSpace(s[n]) {
        LowerTail(s);
        assert TrimEnd(l, Whitespace) == TrimEnd(l[..n], Whitespace);
        assert TrimEnd(s, Whitespace) == TrimEnd(s[..n], Whitespace);
        TrimEndLower(s[..n]);
      }
    }
  }

  // ---------------------------------------------------------------------------------------
  // The backend URL

  /** `os.getenv(key, default)` on the environment passed in. */
  function Getenv(env: map<string, string>, key: string, default: string): (r: string)
    ensures key in env ==> r == env[key]
    ensures key !in env ==> r == default
  {
    if key in env then env[key] else default
  }

  predicate IsHttpUrl(s: string) {
    StartsWith(s, "http://") || StartsWith(s, "https://")
  }

  /**
   * `urlunparse((scheme, netloc, path, "", "", ""))` for a non-empty network location: the
   * path gets a leading slash when it has none.
   */
  function UrlUnparse(scheme: string, netloc: string, path: string): (r: string)
    requires netloc != []
    ensures path != [] && path[0] == '/' ==> r == scheme + "://" + netloc + path
  {
    var p := if path != [] && path[0] != '/' then "/" + path else path;
    scheme + "://" + netloc + p
  }

  /** The explicit setting `API_URL`, trimmed. */
  function ExplicitUrl(env: map<string, string>): string {
    Strip(Getenv(env, "API_URL", ""))
  }

  /** The path asked for: a non-URL explicit setting, else `API_PATH`, else "random_phrase". */
  function ApiPath(env: map<string, string>): string {
    var explicit := ExplicitUrl(env);
    if explicit != [] then explicit else Getenv(env, "API_PATH", "random_phrase")
  }

  /** `_build_api_url()`. */
  function BuildApiUrl(env: map<string, string>): (r: string)
    ensures IsHttpUrl(ExplicitUrl(env)) ==> r == ExplicitUrl(env)
  {
    var explicit := ExplicitUrl(env);
    if IsHttpUrl(explicit) then explicit
    else
      var host := Getenv(env, "API_HOST", "backend");
      var port := Getenv(env, "API_PORT", "7070");
      var normalized := "/" + StripChar(ApiPath(env), '/');
      UrlUnparse("http", host + ":" + port, normalized)
  }

  /**
   * Without an explicit URL the result is `http://host:port/path`, the path stripped of
   * slashes and given exactly one leading slash.
   */
  lemma BuiltApiUrl(env: map<string, string>)
    requires !IsHttpUrl(ExplicitUrl(env))
    ensures BuildApiUrl(env) ==
      "http://" + Getenv(env, "API_HOST", "backend") + ":" + Getenv(env, "API_PORT", "7070") + "/" + StripChar(ApiPath(env), '/')
  {
    var host := Getenv(env, "API_HOST", "backend");
    var port := Getenv(env, "API_PORT", "7070");
    var path := StripChar(ApiPath(env), '/');
    BuiltUnparsed(env);
    Assemble(BuildApiUrl(env), host, port, path);
  }

  /**
   * The URL the built parts give. This and the helpers below each take one step of
   * `BuiltApiUrl`, so that the sequence reasoning of one step stays out of the others.
   */
  lemma Assemble(url: string, host: string, port: string, path: string)
    requires url == UrlUnparse("http", host + ":" + port, "/" + path)
    ensures url == "http://" + host + ":" + port + "/" + path
  {
    UrlShape(host + ":" + port, "/" + path);
    assert "http://" + (host + ":" + port) + ("/" + path) == "http://" + host + ":" + port + "/" + path;
  }

  /** Without an explicit URL, the URL is unparsed from host, port and normalised path. */
  lemma BuiltUnparsed(env: map<string, string>)
    requires !IsHttpUrl(ExplicitUrl(env))
    ensures BuildApiUrl(env) == UrlUnparse("http", Getenv(env, "API_HOST", "backend") + ":" + Getenv(env, "API_PORT", "7070"), "/" + StripChar(ApiPath(env), '/'))
  {
  }

  /** `urlunparse` of a path that already starts with "/" adds nothing between location and path. */
  lemma UrlShape(netloc: string, normalized: string)
    requires netloc != [] && normalized != [] && normalized[0] == '/'
    ensures UrlUnparse("http", netloc, normalized) == "http://" + netloc + normalized
  {
  }

  /** The stripped path neither starts nor ends with a slash, so the URL has one slash before it. */
  lemma NormalizedPathSlashes(path: string)
    ensures var p := StripChar(path, '/'); p == [] || (p[0] != '/' && p[|p| - 1] != '/')
  {
    StripEnds(path, Only('/'));
  }

  /** With nothing set, the frontend asks `http://backend:7070/random_phrase`. */
  lemma DefaultApiUrl()
    ensures BuildApiUrl(map[]) == "http://backend:7070/random_phrase"
  {
    DefaultParts();
    BuiltApiUrl(map[]);
    DefaultText();
  }

  /** With nothing set, there is no explicit URL and the path is the default one. */
  lemma DefaultParts()
    ensures ExplicitUrl(map[]) == [] && !IsHttpUrl(ExplicitUrl(map[]))
    ensures StripChar(ApiPath(map[]), '/') == "random_phrase"
  {
    DefaultExplicit();
    DefaultPath();
  }

  /** With nothing set, the explicit URL is empty. */
  lemma DefaultExplicit()
    ensures ExplicitUrl(map[]) == []
  {
    assert Getenv(map[], "API_URL", "") == [];
  }

  /** The default path has no slash to strip. */
  lemma DefaultPath()
    requires ExplicitUrl(map[]) == []
    ensures StripChar(ApiPath(map[]), '/') == "random_phrase"
  {
    assert ApiPath(map[]) == "random_phrase";
    StripUnchanged("random_phrase", Only('/'));
  }

  /**
   * The default parts, once concatenated, spell the default URL. Kept apart from
   * `DefaultApiUrl`: next to the unfolded URL functions the literal concatenation is too costly.
   */
  lemma DefaultText()
    ensures "http://" + "backend" + ":" + "7070" + "/" + "random_phrase" == "http://backend:7070/random_phrase"
  {
  }

  /** An explicit value that is not a URL is the path: `API_PATH` is then ignored. */
  lemma ExplicitPathUsed(env: map<string, string>, other: string)
    requires ExplicitUrl(env) != [] && !IsHttpUrl(ExplicitUrl(env))
    ensures ApiPath(env) == ExplicitUrl(env)
    ensures BuildApiUrl(env) == BuildApiUrl(env["API_PATH" := other])
  {
    var env' := env["API_PATH" := other];
    assert Getenv(env', "API_URL", "") == Getenv(env, "API_URL", "");
    assert Getenv(env', "API_HOST", "backend") == Getenv(env, "API_HOST", "backend");
    assert Getenv(env', "API_PORT", "7070") == Getenv(env, "API_PORT", "7070");
  }

  // ---------------------------------------------------------------------------------------
  // Response headers

  /** A header list, in order, as the response holds it. */
  type Headers = seq<(string, string)>

  /** Header names compare without regard to case: their lower-case forms are equal. */
  predicate SameName(a: string, b: string) {
    |a| == |b| && forall i :: 0 <= i < |a| ==> LowerChar(a[i]) == LowerChar(b[i])
  }

  lemma SameNameLower(a: string, b: string)
    ensures SameName(a, b) <==> Lower(a) == Lower(b)
  {
    if Lower(a) == Lower(b) {
      assert |a| == |Lower(a)|;
      forall i | 0 <= i < |a| ensures LowerChar(a[i]) == LowerChar(b[i]) {
        assert Lower(a)[i] == Lower(b)[i];
      }
    }
  }

  /**
   * The entries named `key`, in order. The length bound is only a size fact;
   * `SetHeaderMatches` and `SecuredValues` say what the lookups give.
   */
  function Matches(h: Headers, key: string): (r: Headers)
    ensures |r| <= |h|
  {
    if h == [] then []
    else if SameName(h[0].0, key) then [h[0]] + Matches(h[1..], key)
    else Matches(h[1..], key)
  }

  /**
   * The entries not named `key`, in order. The length bound is only a size fact;
   * `WithoutHasNoMatch` and `WithoutOtherMatches` say what is removed and what is kept.
   */
  function Without(h: Headers, key: string): (r: Headers)
    ensures |r| <= |h|
  {
    if h == [] then []
    else if SameName(h[0].0, key) then Without(h[1..], key)
    else [h[0]] + Without(h[1..], key)
  }

  /**
   * `headers[key] = value`: the first entry with that name is replaced by (key, value) and the
   * later ones are dropped; without one, the entry is appended.
   */
  function SetHeader(h: Headers, key: string, value: string): Headers {
    if h == [] then [(key, value)]
    else if SameName(h[0].0, key) then [(key, value)] + Without(h[1..], key)
    else [h[0]] + SetHeader(h[1..], key, value)
  }

  /** After setting, the name has exactly one entry, holding the new value. */
  lemma {:induction false} SetHeaderMatches(h: Headers, key: string, value: string)
    ensures Matches(SetHeader(h, key, value), key) == [(key, value)]
  {
    if h == [] {
    } else if SameName(h[0].0, key) {
      var t := Without(h[1..], key);
      WithoutHasNoMatch(h[1..], key);
      assert ([(key, value)] + t)[1..] == t;
    } else {
      assert ([h[0]] + SetHeader(h[1..], key, value))[1..] == SetHeader(h[1..], key, value);
      SetHeaderMatches(h[1..], key, value);
    }
  }

  lemma {:induction false} WithoutHasNoMatch(h: Headers, key: string)
    ensures Matches(Without(h, key), key) == []
  {
    if h != [] {
      WithoutHasNoMatch(h[1..], key);
      if !SameName(h[0].0, key) {
        assert ([h[0]] + Without(h[1..], key))[1..] == Without(h[1..], key);
      }
    }
  }

  /** Setting a header leaves every entry of another name, and their order, as it was. */
  lemma {:induction false} SetHeaderKeepsOthers(h: Headers, key: string, value: string)
    ensures Without(SetHeader(h, key, value), key) == Without(h, key)
  {
    if h == [] {
    } else if SameName(h[0].0, key) {
      var t := Without(h[1..], key);
      assert ([(key, value)] + t)[1..] == t;
      WithoutTwice(h[1..], key);
    } else {
      var s := SetHeader(h[1..], key, value);
      assert ([h[0]] + s)[1..] == s;
      SetHeaderKeepsOthers(h[1..], key, value);
    }
  }

  lemma {:induction false} WithoutTwice(h: Headers, key: string)
    ensures Without(Without(h, key), key) == Without(h, key)
  {
    if h != [] {
      WithoutTwice(h[1..], key);
      if !SameName(h[0].0, key) {
        assert ([h[0]] + Without(h[1..], key))[1..] == Without(h[1..], key);
      }
    }
  }

  /** Entries of a name other than the one set are the same before and after. */
  lemma {:induction false} SetHeaderOtherMatches(h: Headers, key: string, value: string, other: string)
    requires !SameName(other, key)
    ensures Matches(SetHeader(h, key, value), other) == Matches(h, other)
  {
    if h == [] {
    } else if SameName(h[0].0, key) {
      var t := Without(h[1..], key);
      assert ([(key, value)] + t)[1..] == t;
      WithoutOtherMatches(h[1..], key, other);
    } else {
      var s := SetHeader(h[1..], key, value);
      assert ([h[0]] + s)[1..] == s;
      SetHeaderOtherMatches(h[1..], key, value, other);
    }
  }

  lemma {:induction false} WithoutOtherMatches(h: Headers, key: string, other: string)
    requires !SameName(other, key)
    ensures Matches(Without(h, key), other) == Matches(h, other)
  {
    if h != [] {
      WithoutOtherMatches(h[1..], key, other);
      if !SameName(h[0].0, key) {
        assert ([h[0]] + Without(h[1..], key))[1..] == Without(h[1..], key);
      }
    }
  }

  /** Removing one name and setting another commute. */
  lemma {:induction false} WithoutSetHeader(h: Headers, key: string, value: string, other: string)
    requires !SameName(other, key)
    ensures Without(SetHeader(h, key, value), other) == SetHeader(Without(h, other), key, value)
  {
    if h == [] {
    } else if SameName(h[0].0, key) {
      var t := Without(h[1..], key);
      assert ([(key, value)] + t)[1..] == t;
      WithoutCommutes(h[1..], key, other);
      if !SameName(h[0].0, other) {
        assert ([h[0]] + Without(h[1..], other))[1..] == Without(h[1..], other);
      } else {
        assert false;
      }
    } else {
      var s := SetHeader(h[1..], key, value);
      assert ([h[0]] + s)[1..] == s;
      WithoutSetHeader(h[1..], key, value, other);
      if !SameName(h[0].0, other) {
        assert ([h[0]] + Without(h[1..], other))[1..] == Without(h[1..], other);
      }
    }
  }

  lemma {:induction false} WithoutCommutes(h: Headers, a: string, b: string)
    ensures Without(Without(h, a), b) == Without(Without(h, b), a)
  {
    if h != [] {
      var t := h[1..];
      WithoutCommutes(t, a, b);
      var ta := Without(t, a);
      var tb := Without(t, b);
      if !SameName(h[0].0, a) {
        assert Without(h, a) == [h[0]] + ta;
        assert ([h[0]] + ta)[1..] == ta;
      }
      if !SameName(h[0].0, b) {
        assert Without(h, b) == [h[0]] + tb;
        assert ([h[0]] + tb)[1..] == tb;
      }
    }
  }

  /** Setting the value a name already holds alone changes nothing. */
  lemma {:induction false} SetHeaderFixed(h: Headers, key: string, value: string)
    requires Matches(h, key) == [(key, value)]
    ensures SetHeader(h, key, value) == h
  {
    var m := Matches(h[1..], key);
    if SameName(h[0].0, key) {
      assert ([h[0]] + m)[0] == h[0];
      assert h[0] == (key, value);
      assert m == [];
      WithoutNoMatch(h[1..], key);
    } else {
      SetHeaderFixed(h[1..], key, value);
    }
  }

  lemma {:induction false} WithoutNoMatch(h: Headers, key: string)
    requires Matches(h, key) == []
    ensures Without(h, key) == h
  {
    if h != [] {
      if SameName(h[0].0, key) {
        assert false;
      } else {
        WithoutNoMatch(h[1..], key);
      }
    }
  }

  /** Setting a header twice is setting it once. */
  lemma SetHeaderIdempotent(h: Headers, key: string, value: string)
    ensures SetHeader(SetHeader(h, key, value), key, value) == SetHeader(h, key, value)
  {
    SetHeaderMatches(h, key, value);
    SetHeaderFixed(SetHeader(h, key, value), key, value);
  }

  const ContentTypeOptions := "X-Content-Type-Options"
  const FrameOptions := "X-Frame-Options"
  const ReferrerPolicy := "Referrer-Policy"
  const ContentSecurityPolicy := "Content-Security-Policy"

  const NoSniff := "nosniff"
  const Deny := "DENY"
  const StrictOrigin := "strict-origin-when-cross-origin"
  const SelfOnly := "default-src 'self'; img-src 'self' data:; style-src 'self'; script-src 'self'; base-uri 'none'; form-action 'self'"

  /** The headers after `_apply_security_headers`: the four settings, in the source's order. */
  function Secured(h: Headers): Headers {
    var h1 := SetHeader(h, ContentTypeOptions, NoSniff);
    var h2 := SetHeader(h1, FrameOptions, Deny);
    var h3 := SetHeader(h2, ReferrerPolicy, StrictOrigin);
    SetHeader(h3, ContentSecurityPolicy, SelfOnly)
  }

  /** No two of the four security header names are the same name. */
  lemma SecurityNamesDistinct()
    ensures !SameName(FrameOptions, ContentTypeOptions)
    ensures !SameName(ReferrerPolicy, ContentTypeOptions) && !SameName(ReferrerPolicy, FrameOptions)
    ensures !SameName(ContentSecurityPolicy, ContentTypeOptions)
    ensures !SameName(ContentSecurityPolicy, FrameOptions) && !SameName(ContentSecurityPolicy, ReferrerPolicy)
  {
    // Names of different lengths differ; the two of length 15 differ in their first letter.
    assert |ContentTypeOptions| == 22 && |FrameOptions| == 15;
    assert |ReferrerPolicy| == 15 && |ContentSecurityPolicy| == 23;
    assert LowerChar(ReferrerPolicy[0]) != LowerChar(FrameOptions[0]);
  }

  /** Each of the four names ends up with exactly one entry, holding its fixed value. */
  lemma SecuredValues(h: Headers)
    ensures Matches(Secured(h), ContentTypeOptions) == [(ContentTypeOptions, NoSniff)]
    ensures Matches(Secured(h), FrameOptions) == [(FrameOptions, Deny)]
    ensures Matches(Secured(h), ReferrerPolicy) == [(ReferrerPolicy, StrictOrigin)]
    ensures Matches(Secured(h), ContentSecurityPolicy) == [(ContentSecurityPolicy, SelfOnly)]
  {
    var h1 := SetHeader(h, ContentTypeOptions, NoSniff);
    var h2 := SetHeader(h1, FrameOptions, Deny);
    var h3 := SetHeader(h2, ReferrerPolicy, StrictOrigin);
    SecurityNamesDistinct();
    SetHeaderMatches(h, ContentTypeOptions, NoSniff);
    SetHeaderOtherMatches(h1, FrameOptions, Deny, ContentTypeOptions);
    SetHeaderOtherMatches(h2, ReferrerPolicy, StrictOrigin, ContentTypeOptions);
    SetHeaderOtherMatches(h3, ContentSecurityPolicy, SelfOnly, ContentTypeOptions);
    SetHeaderMatches(h1, FrameOptions, Deny);
    SetHeaderOtherMatches(h2, ReferrerPolicy, StrictOrigin, FrameOptions);
    SetHeaderOtherMatches(h3, ContentSecurityPolicy, SelfOnly, FrameOptions);
    SetHeaderMatches(h2, ReferrerPolicy, StrictOrigin);
    SetHeaderOtherMatches(h3, ContentSecurityPolicy, SelfOnly, ReferrerPolicy);
    SetHeaderMatches(h3, ContentSecurityPolicy, SelfOnly);
  }

  /** A name other than the four keeps exactly the entries it had. */
  lemma SecuredOtherMatches(h: Headers, name: string)
    requires !SameName(name, ContentTypeOptions) && !SameName(name, FrameOptions)
    requires !SameName(name, ReferrerPolicy) && !SameName(name, ContentSecurityPolicy)
    ensures Matches(Secured(h), name) == Matches(h, name)
  {
    var h1 := SetHeader(h, ContentTypeOptions, NoSniff);
    var h2 := SetHeader(h1, FrameOptions, Deny);
    var h3 := SetHeader(h2, ReferrerPolicy, StrictOrigin);
    SetHeaderOtherMatches(h, ContentTypeOptions, NoSniff, name);
    SetHeaderOtherMatches(h1, FrameOptions, Deny, name);
    SetHeaderOtherMatches(h2, ReferrerPolicy, StrictOrigin, name);
    SetHeaderOtherMatches(h3, ContentSecurityPolicy, SelfOnly, name);
  }

  /** The entries whose name is none of the four security headers, in order. */
  function OtherHeaders(h: Headers): Headers {
    Without(Without(Without(Without(h, ContentSecurityPolicy), ReferrerPolicy), FrameOptions), ContentTypeOptions)
  }

  /** Every other header stays where it was, relative to the other ones, with its value. */
  lemma SecuredKeepsOthers(h: Headers)
    ensures OtherHeaders(Secured(h)) == OtherHeaders(h)
  {
    SecurityNamesDistinct();
    var h1 := SetHeader(h, ContentTypeOptions, NoSniff);
    var h2 := SetHeader(h1, FrameOptions, Deny);
    var h3 := SetHeader(h2, ReferrerPolicy, StrictOrigin);
    // Removing the policy header: the last setting disappears, the others move past it.
    SetHeaderKeepsOthers(h3, ContentSecurityPolicy, SelfOnly);
    var w4 := Without(h, ContentSecurityPolicy);
    WithoutSetHeader(h2, ReferrerPolicy, StrictOrigin, ContentSecurityPolicy);
    WithoutSetHeader(h1, FrameOptions, Deny, ContentSecurityPolicy);
    WithoutSetHeader(h, ContentTypeOptions, NoSniff, ContentSecurityPolicy);
    var g1 := SetHeader(w4, ContentTypeOptions, NoSniff);
    var g2 := SetHeader(g1, FrameOptions, Deny);
    assert Without(h3, ContentSecurityPolicy) == SetHeader(g2, ReferrerPolicy, StrictOrigin);
    // Removing the referrer header.
    SetHeaderKeepsOthers(g2, ReferrerPolicy, StrictOrigin);
    var w3 := Without(w4, ReferrerPolicy);
    WithoutSetHeader(g1, FrameOptions, Deny, ReferrerPolicy);
    WithoutSetHeader(w4, ContentTypeOptions, NoSniff, ReferrerPolicy);
    var f1 := SetHeader(w3, ContentTypeOptions, NoSniff);
    assert Without(g2, ReferrerPolicy) == SetHeader(f1, FrameOptions, Deny);
    // Removing the frame header, then the content-type header.
    SetHeaderKeepsOthers(f1, FrameOptions, Deny);
    var w2 := Without(w3, FrameOptions);
    WithoutSetHeader(w3, ContentTypeOptions, NoSniff, FrameOptions);
    SetHeaderKeepsOthers(w2, ContentTypeOptions, NoSniff);
  }

  /** Applying the security headers a second time changes nothing. */
  lemma SecuredIdempotent(h: Headers)
    ensures Secured(Secured(h)) == Secured(h)
  {
    var s := Secured(h);
    SecuredValues(h);
    SecurityNamesDistinct();
    SetHeaderFixed(s, ContentTypeOptions, NoSniff);
    SetHeaderFixed(s, FrameOptions, Deny);
    SetHeaderFixed(s, ReferrerPolicy, StrictOrigin);
    SetHeaderFixed(s, ContentSecurityPolicy, SelfOnly);
  }

  /** A response whose header list is updated in place. */
  class Response {
    var headers: Headers

    constructor (headers: Headers)
      ensures this.headers == headers
    {
      this.headers := headers;
    }

    /** `response.headers[key] = value`. */
    method Set(key: string, value: string)
      modifies this
      ensures headers == SetHeader(old(headers), key, value)
    {
      headers := SetHeader(headers, key, value);
    }
  }

  /** `_apply_security_headers(response)`: updates the response's headers and returns it. */
  method ApplySecurityHeaders(response: Response) returns (r: Response)
    modifies response
    ensures r == response
    ensures response.headers == Secured(old(response.headers))
  {
    response.Set(ContentTypeOptions, NoSniff);
    response.Set(FrameOptions, Deny);
    response.Set(ReferrerPolicy, StrictOrigin);
    response.Set(ContentSecurityPolicy, SelfOnly);
    return response;
  }

  // ---------------------------------------------------------------------------------------
  // The phrase page

  /**
   * What fetching the phrase gave: the decoded payload, or a failure of the request, of its
   * status or of decoding its body (a `RequestException` or a `ValueError`).
   */
  datatype Fetch = Fetched(payload: Json) | RequestFailed

  /** The phrase and selection time handed to the template; the rounded total time is left out. */
  datatype PhraseData = PhraseData(phrase: string, selectionTime: Json)

  /** The template's variables: the phrase, the selection time and the error message, if any. */
  datatype PhrasePage = PhrasePage(phrase: string, selectionTime: Json, error: Option<string>)

  datatype Rendered = Rendered(page: PhrasePage, status: int)

  const MissingPhrase := "No phrase returned"
  const UnavailablePhrase := "Unable to fetch phrase right now."
  const UnavailableError := "Backend service unavailable. Please try again."

  /**
   * The payload part of `_fetch_phrase_data`: `str()` of the phrase, or a fixed text when it
   * is missing, and the selection time, or None. A payload that is not a dict has no `.get`
   * and raises.
   */
  function PhraseOf(payload: Json): (r: Outcome<PhraseData>)
    ensures payload.Obj? <==> r.Returned?
  {
    if !payload.Obj? then Raised
    else
      var fields := payload.fields;
      Returned(PhraseData(PyStr(Get(fields, "phrase", Str(MissingPhrase))), Get(fields, "selection_time", Null)))
  }

  /**
   * `_render_phrase_page()`: the phrase page with status 200, or the fallback page with status
   * 502 when the fetch failed. An `AttributeError` from a payload that is not a dict is not
   * caught and escapes.
   */
  function RenderPhrasePage(fetch: Fetch): (r: Outcome<Rendered>)
    ensures r.Returned? ==> r.value.status == 200 || r.value.status == 502
  {
    match fetch
    case RequestFailed => Returned(Rendered(PhrasePage(UnavailablePhrase, Null, Some(UnavailableError)), 502))
    case Fetched(payload) =>
      match PhraseOf(payload)
      case Raised => Raised
      case Returned(data) => Returned(Rendered(PhrasePage(data.phrase, data.selectionTime, None), 200))
  }

  /** A failed fetch gives 502 and the fixed texts, a fetched dict gives 200 and no error. */
  lemma RenderStatus(fetch: Fetch)
    ensures fetch.RequestFailed? ==> RenderPhrasePage(fetch) == Returned(Rendered(PhrasePage(UnavailablePhrase, Null, Some(UnavailableError)), 502))
    ensures RenderPhrasePage(fetch).Returned? ==> (RenderPhrasePage(fetch).value.status == 200 <==> fetch.Fetched?)
    ensures RenderPhrasePage(fetch).Returned? ==> (RenderPhrasePage(fetch).value.page.error.Some? <==> fetch.RequestFailed?)
    ensures RenderPhrasePage(fetch).Raised? <==> fetch.Fetched? && !fetch.payload.Obj?
  {
  }

  /** The page of a fetched dict shows its phrase, or the fixed text when it has none. */
  lemma RenderedPhrase(fields: map<string, Json>)
    ensures var r := RenderPhrasePage(Fetched(Obj(fields)));
      && r.Returned? && r.value.status == 200
      && ("phrase" !in fields ==> r.value.page.phrase == MissingPhrase)
      && ("phrase" in fields && fields["phrase"].Str? ==> r.value.page.phrase == fields["phrase"].s)
      && ("selection_time" !in fields ==> r.value.page.selectionTime == Null)
  {
  }
}
