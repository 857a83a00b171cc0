/**
 * `BackendApiClient`: where the backend lives, who the developer is, and the
 * request bodies sent to it. System properties and environment variables are
 * an `Environment` value; the HTTP exchange is the function `send`, from the
 * request to the status and body it gives (or the exception it throws).
 */
module BackendApiClient {
  import opened Wrappers
  import opened JavaText
  import opened Json
  import JsonWriter
  import JsonParser
  import JsonRoundTrip

  /** What a backend call gives its caller: the decoded map, or the message of the exception thrown. */
  datatype Outcome = Answer(response: seq<(string, Value)>) | Failure(message: string)

  const DefaultBackendUrl: string := "http://127.0.0.1:8000"
  const UnknownDeveloper: string := "unknown-developer"
  const DefaultObjectName: string := "ADT_OBJECT"
  const DefaultTransport: string := "ADT"

  // ---------------------------------------------------------------------------
  // Settings (`readSetting`)
  // ---------------------------------------------------------------------------

  /** The JVM's system properties and the process environment. */
  datatype Environment = Environment(properties: map<string, string>, variables: map<string, string>)

  /** `System.getProperty`. */
  function Property(env: Environment, key: string): Option<string> {
    if key in env.properties then Some(env.properties[key]) else None
  }

  /** `System.getenv`. */
  function Variable(env: Environment, name: string): Option<string> {
    if name in env.variables then Some(env.variables[name]) else None
  }

  /** The environment variable behind a setting: the key upper-cased, with `_` for `.`. */
  function EnvName(key: string): (r: string)
    ensures |r| == |key|
  {
    seq(|key|, i requires 0 <= i < |key| => if key[i] == '.' then '_' else UpperChar(key[i]))
  }

  /** The environment variables the plugin's own settings fall back to. */
  lemma SettingNames()
    ensures EnvName("codebot.backend.url") == "CODEBOT_BACKEND_URL"
    ensures EnvName("codebot.user") == "CODEBOT_USER"
  {
  }

  /** A value that is present and not empty once trimmed. */
  predicate Usable(value: Option<string>) {
    value.Some? && Trim(value.value) != []
  }

  /**
   * `readSetting`: the system property when it is usable, else the
   * environment variable when it is usable, trimmed; else the default.
   */
  function ReadSetting(env: Environment, key: string, default: string): string {
    var value := if Usable(Property(env, key)) then Property(env, key) else Variable(env, EnvName(key));
    if Usable(value) then Trim(value.value) else default
  }

  /**
   * The property wins over the variable, the variable over the default, and
   * whatever is read comes back trimmed and not empty.
   */
  lemma ReadSettingSpec(env: Environment, key: string, default: string)
    ensures var r := ReadSetting(env, key, default);
      && (r == default || (r != [] && Trim(r) == r))
      && (Usable(Property(env, key)) ==> r == Trim(Property(env, key).value))
      && (!Usable(Property(env, key)) && Usable(Variable(env, EnvName(key))) ==>
            r == Trim(Variable(env, EnvName(key)).value))
      && (!Usable(Property(env, key)) && !Usable(Variable(env, EnvName(key))) ==> r == default)
  {
    if Usable(Property(env, key)) {
      TrimTrimmed(Property(env, key).value);
    } else if Usable(Variable(env, EnvName(key))) {
      TrimTrimmed(Variable(env, EnvName(key)).value);
    }
  }

  // ---------------------------------------------------------------------------
  // Developer identity (`resolveDeveloperIdentity`)
  // ---------------------------------------------------------------------------

  /** The local identities tried in turn when no user is configured. */
  function Candidates(env: Environment): seq<Option<string>> {
    [Variable(env, "HB_USER_EMAIL"), Variable(env, "USEREMAIL"), Variable(env, "EMAIL"),
     Property(env, "user.name"), Variable(env, "USERNAME"), Variable(env, "USER")]
  }

  /** The first usable candidate, trimmed. */
  function FirstUsable(candidates: seq<Option<string>>): Option<string> {
    if candidates == [] then None
    else if Usable(candidates[0]) then Some(Trim(candidates[0].value))
    else FirstUsable(candidates[1..])
  }

  /**
   * `FirstUsable` finds a candidate exactly when one is usable, and then the
   * one before which none is.
   */
  lemma {:induction false} FirstUsableSpec(candidates: seq<Option<string>>)
    ensures FirstUsable(candidates).None? <==> forall i :: 0 <= i < |candidates| ==> !Usable(candidates[i])
    ensures FirstUsable(candidates).Some? ==>
      exists k :: 0 <= k < |candidates| && Usable(candidates[k])
        && FirstUsable(candidates).value == Trim(candidates[k].value)
        && forall j :: 0 <= j < k ==> !Usable(candidates[j])
  {
    if candidates != [] {
      var rest := candidates[1..];
      FirstUsableSpec(rest);
      if !Usable(candidates[0]) {
        forall i | 0 <= i < |rest| ensures rest[i] == candidates[i + 1] { }
        if FirstUsable(rest).Some? {
          var k :| 0 <= k < |rest| && Usable(rest[k]) && FirstUsable(rest).value == Trim(rest[k].value)
                   && forall j :: 0 <= j < k ==> !Usable(rest[j]);
          assert forall j :: 0 <= j < k + 1 ==> !Usable(candidates[j]) by {
            forall j | 0 <= j < k + 1 ensures !Usable(candidates[j]) {
              if j > 0 {
                assert candidates[j] == rest[j - 1];
              }
            }
          }
          assert Usable(candidates[k + 1]);
        } else {
          forall i | 0 <= i < |candidates| ensures !Usable(candidates[i]) {
            if i > 0 {
              assert candidates[i] == rest[i - 1];
            }
          }
        }
      } else {
        assert Usable(candidates[0]);
      }
    }
  }

  /**
   * The identity sent as `developer`: the configured user unless it is
   * blank, else the first usable local identity, else `unknown-developer`.
   */
  function Identity(env: Environment): string {
    var configured := ReadSetting(env, "codebot.user", "");
    if !IsBlank(configured) then configured
    else FirstUsable(Candidates(env)).GetOr(UnknownDeveloper)
  }

  /** `resolveDeveloperIdentity`. */
  method ResolveDeveloperIdentity(env: Environment) returns (user: string)
    ensures user == Identity(env)
  {
    var configured := ReadSetting(env, "codebot.user", "");
    if !IsBlank(configured) {
      return configured;
    }
    var candidates := Candidates(env);
    for i := 0 to |candidates|
      invariant FirstUsable(candidates) == FirstUsable(candidates[i..])
    {
      assert candidates[i..][1..] == candidates[i + 1..];
      if candidates[i].Some? {
        var clean := Trim(candidates[i].value);
        if clean != [] {
          return clean;
        }
      }
    }
    assert candidates[|candidates|..] == [];
    return UnknownDeveloper;
  }

  /**
   * The identity is never empty: a configured user that is not blank comes
   * first, then the first local identity that is usable, and only when there
   * is none `unknown-developer`.
   */
  lemma IdentitySpec(env: Environment)
    ensures Identity(env) != []
    ensures var configured := ReadSetting(env, "codebot.user", "");
      && (!IsBlank(configured) ==> Identity(env) == configured)
      && (IsBlank(configured) && (forall i :: 0 <= i < 6 ==> !Usable(Candidates(env)[i])) ==>
            Identity(env) == UnknownDeveloper)
      && (IsBlank(configured) && Identity(env) != UnknownDeveloper ==>
            exists k :: 0 <= k < 6 && Usable(Candidates(env)[k]) && Identity(env) == Trim(Candidates(env)[k].value)
              && forall j :: 0 <= j < k ==> !Usable(Candidates(env)[j]))
  {
    var cs := Candidates(env);
    FirstUsableSpec(cs);
    var configured := ReadSetting(env, "codebot.user", "");
    if !IsBlank(configured) {
      assert configured != [];
    }
  }

  // ---------------------------------------------------------------------------
  // Base URL (`normalizeBaseUrl`)
  // ---------------------------------------------------------------------------

  /** `http://` in front unless the text already starts with `http://` or `https://`. */
  function WithScheme(raw: string): string {
    if !StartsWith(raw, "http://") && !StartsWith(raw, "https://") then "http://" + raw else raw
  }

  /** The text without its trailing slashes. */
  function StripSlashes(s: string): string {
    if s != [] && s[|s| - 1] == '/' then StripSlashes(s[..|s| - 1]) else s
  }

  /** What is stripped is the longest run of trailing slashes: a prefix stays and no slash ends it. */
  lemma {:induction false} StripSlashesSpec(s: string)
    ensures var r := StripSlashes(s);
      && |r| <= |s| && r == s[..|r|]
      && (r == [] || r[|r| - 1] != '/')
      && forall i :: |r| <= i < |s| ==> s[i] == '/'
  {
    if s != [] && s[|s| - 1] == '/' {
      StripSlashesSpec(s[..|s| - 1]);
    }
  }

  /** One `/api` at the end, in any case, is cut off. */
  function CutApi(raw: string): string {
    if EndsWith(ToLower(raw), "/api") then raw[..|raw| - 4] else raw
  }

  /** An HTTPS URL of the local development backend. */
  predicate LoopbackHttps(raw: string) {
    var lower := ToLower(raw);
    StartsWith(lower, "https://127.0.0.1") || StartsWith(lower, "https://localhost")
  }

  /** The local backend speaks plain HTTP. */
  function PlainHttp(raw: string): string {
    if LoopbackHttps(raw) then "http://" + raw[8..] else raw
  }

  /** The base URL `normalizeBaseUrl` makes of a configured one. */
  function NormalizedUrl(configured: Option<string>): string {
    var raw := Trim(configured.GetOr(""));
    if raw == [] then DefaultBackendUrl
    else PlainHttp(CutApi(StripSlashes(WithScheme(raw))))
  }

  /** `normalizeBaseUrl`, with its loop over trailing slashes. */
  method NormalizeBaseUrl(configured: Option<string>) returns (url: string)
    ensures url == NormalizedUrl(configured)
  {
    var raw := if configured.None? then "" else Trim(configured.value);
    if raw == [] {
      return DefaultBackendUrl;
    }
    if !StartsWith(raw, "http://") && !StartsWith(raw, "https://") {
      raw := "http://" + raw;
    }
    ghost var schemed := raw;
    while EndsWith(raw, "/")
      invariant StripSlashes(raw) == StripSlashes(schemed)
      decreases |raw|
    {
      assert raw[|raw| - 1] == '/';
      raw := raw[..|raw| - 1];
    }
    var lower := ToLower(raw);
    if EndsWith(lower, "/api") {
      raw := raw[..|raw| - 4];
      lower := ToLower(raw);
    }
    if StartsWith(lower, "https://127.0.0.1") || StartsWith(lower, "https://localhost") {
      raw := "http://" + raw[|"https://"|..];
    }
    url := raw;
  }

  /** Stripping slashes keeps a prefix that does not end in a slash. */
  lemma {:induction false} StripKeeps(s: string, p: string)
    requires StartsWith(s, p) && p != [] && p[|p| - 1] != '/'
    ensures StartsWith(StripSlashes(s), p)
  {
    if s != [] && s[|s| - 1] == '/' {
      assert |s| > |p|;
      assert s[..|s| - 1][..|p|] == s[..|p|];
      StripKeeps(s[..|s| - 1], p);
    }
  }

  /** Cutting `/api` keeps a prefix holding no slash. */
  lemma CutKeeps(s: string, p: string)
    requires StartsWith(s, p) && forall i :: 0 <= i < |p| ==> p[i] != '/'
    ensures StartsWith(CutApi(s), p)
  {
    if EndsWith(ToLower(s), "/api") {
      var k := |s| - 4;
      assert ToLower(s)[k] == '/';
      assert s[k] == '/';
      assert CutApi(s)[..|p|] == s[..|p|];
    }
  }

  /** The slash-free prefixes the scheme leaves: `http:`, or `https:` for an `https://` URL. */
  lemma SchemePrefix(raw: string)
    requires raw != []
    ensures var u := StripSlashes(WithScheme(raw));
      StartsWith(CutApi(u), "http:") || (StartsWith(raw, "https://") && StartsWith(CutApi(u), "https:"))
  {
    var w := WithScheme(raw);
    if StartsWith(w, "http://") {
      assert w[..5] == "http:";
      StripKeeps(w, "http:");
      CutKeeps(StripSlashes(w), "http:");
    } else {
      assert StartsWith(raw, "https://");
      assert w[..6] == "https:";
      StripKeeps(w, "https:");
      CutKeeps(StripSlashes(w), "https:");
    }
  }

  /**
   * The base URL is the default for a missing or empty setting, always has
   * an `http:` or `https:` scheme (`https:` only when the setting gave one),
   * and never points at the local backend over HTTPS.
   */
  lemma NormalizedUrlScheme(configured: Option<string>)
    ensures var raw := Trim(configured.GetOr(""));
      var r := NormalizedUrl(configured);
      && (raw == [] ==> r == DefaultBackendUrl)
      && (StartsWith(r, "http:") || StartsWith(r, "https:"))
      && (StartsWith(r, "https:") ==> StartsWith(raw, "https://"))
      && !LoopbackHttps(r)
  {
    var raw := Trim(configured.GetOr(""));
    var r := NormalizedUrl(configured);
    if raw == [] {
      assert r[..5] == "http:";
      assert ToLower(r)[4] == ':';
    } else {
      SchemePrefix(raw);
      var c := CutApi(StripSlashes(WithScheme(raw)));
      if LoopbackHttps(c) {
        assert r[..5] == "http:";
        assert r[4] == ':' && ToLower(r)[4] == ':';
      } else {
        assert r == c;
        assert StartsWith(c, "https:") ==> c[4] == 's';
        assert StartsWith(c, "http:") ==> c[4] == ':';
      }
    }
  }

  /**
   * A trailing slash survives only where cutting `/api` lays one bare: the
   * URL with its slashes stripped ended in `//api`, in any case.
   */
  lemma NormalizedUrlEnd(configured: Option<string>)
    ensures var raw := Trim(configured.GetOr(""));
      var r := NormalizedUrl(configured);
      r != [] && r[|r| - 1] == '/' ==>
        var u := StripSlashes(WithScheme(raw));
        raw != [] && EndsWith(ToLower(u), "/api") && |u| >= 5 && u[|u| - 5] == '/'
  {
    var raw := Trim(configured.GetOr(""));
    var r := NormalizedUrl(configured);
    if raw != [] && r != [] && r[|r| - 1] == '/' {
      var u := StripSlashes(WithScheme(raw));
      StripSlashesSpec(WithScheme(raw));
      var c := CutApi(u);
      if LoopbackHttps(c) {
        assert r[|r| - 1] == c[|c| - 1];
      }
      assert c != [] && c[|c| - 1] == '/';
    }
  }

  /** A bare host gets a scheme, and loses its slashes and one `/api` in any case. */
  lemma NormalizedBareHost()
    ensures NormalizedUrl(Some("h/API/")) == "http://h"
  {
    var raw := "h/API/";
    assert Trim(raw) == raw;
    assert !StartsWith(raw, "http://") && !StartsWith(raw, "https://");
    var w := "http://" + raw;
    assert WithScheme(raw) == w;
    var u := "http://h/API";
    assert StripSlashes(w) == StripSlashes(u) == u;
    assert ToLower(u)[|u| - 4..] == "/api";
    assert CutApi(u) == "http://h";
  }

  /** A `//api` ending loses `api` but keeps the slash before it. */
  lemma SlashApiNormalized()
    ensures NormalizedUrl(Some("h//api")) == "http://h/"
  {
    var raw := "h//api";
    assert Trim(raw) == raw;
    var w := "http://" + raw;
    assert WithScheme(raw) == w;
    assert StripSlashes(w) == w;
    assert ToLower(w)[|w| - 4..] == "/api";
    var c := "http://h/";
    assert CutApi(w) == c;
    assert ToLower(c)[4] == ':';
  }

  /** An `http://` URL ending in one slash loses just that slash. */
  lemma HostSlashNormalized()
    ensures NormalizedUrl(Some("http://h/")) == "http://h"
  {
    var raw := "http://h/";
    assert Trim(raw) == raw;
    assert raw[..7] == "http://";
    assert WithScheme(raw) == raw;
    var u := "http://h";
    assert StripSlashes(raw) == StripSlashes(u) == u;
    assert ToLower(u)[|u| - 4] == ':';
    assert CutApi(u) == u;
  }

  /** Normalizing is not idempotent: a `//api` ending leaves a slash the next pass strips. */
  lemma NormalizedTwice()
    ensures var once := NormalizedUrl(Some("h//api"));
      once == "http://h/" && NormalizedUrl(Some(once)) == "http://h"
  {
    SlashApiNormalized();
    HostSlashNormalized();
  }

  // ---------------------------------------------------------------------------
  // The client and its request bodies
  // ---------------------------------------------------------------------------

  /** A `BackendApiClient`: the settings read once, when it is made. */
  datatype Client = Client(baseUrl: string, user: string, projectId: string, packName: string)

  /** The constructor: normalized base URL, developer identity, project and pack settings. */
  method NewClient(env: Environment) returns (c: Client)
    ensures c.baseUrl == NormalizedUrl(Some(ReadSetting(env, "codebot.backend.url", DefaultBackendUrl)))
    ensures c.user == Identity(env)
    ensures c.projectId == ReadSetting(env, "codebot.project.id", "")
    ensures c.packName == ReadSetting(env, "codebot.pack.name", "")
  {
    var url := NormalizeBaseUrl(Some(ReadSetting(env, "codebot.backend.url", DefaultBackendUrl)));
    var user := ResolveDeveloperIdentity(env);
    c := Client(url, user, ReadSetting(env, "codebot.project.id", ""), ReadSetting(env, "codebot.pack.name", ""));
  }

  /** `null` for an empty setting. */
  function OrNull(s: string): Value {
    if s == [] then Null else Str(s)
  }

  /** A string that defaults when `null`. */
  function OrDefault(s: Option<string>, default: string): string {
    if s.None? then default else s.value
  }

  /** A string that defaults when `null` or blank. */
  function OrDefaultIfBlank(s: Option<string>, default: string): string {
    if s.None? || IsBlank(s.value) then default else s.value
  }

  /** The body of `assist`. */
  function AssistPayload(c: Client, query: Option<string>, code: Option<string>, objectName: Option<string>,
                         transport: Option<string>, logViolations: bool, llmFallbackConfirmed: bool)
    : seq<(string, Value)>
  {
    [("query", Str(OrDefault(query, ""))),
     ("code", Str(OrDefault(code, ""))),
     ("object_name", Str(OrDefault(objectName, DefaultObjectName))),
     ("project_id", OrNull(c.projectId)),
     ("pack_name", OrNull(c.packName)),
     ("developer", Str(c.user)),
     ("transport", Str(OrDefault(transport, DefaultTransport))),
     ("top_k", Int(6)),
     ("log_violations", Bool(logViolations)),
     ("llm_fallback_confirmed", Bool(llmFallbackConfirmed))]
  }

  /** The body of `validate`. */
  function ValidatePayload(c: Client, code: Option<string>, objectName: Option<string>, transport: Option<string>,
                           logViolations: bool): seq<(string, Value)>
  {
    [("code", Str(OrDefault(code, ""))),
     ("object_name", Str(OrDefault(objectName, DefaultObjectName))),
     ("project_id", OrNull(c.projectId)),
     ("pack_name", OrNull(c.packName)),
     ("developer", Str(c.user)),
     ("transport", Str(OrDefault(transport, DefaultTransport))),
     ("top_k", Int(30)),
     ("log_violations", Bool(logViolations))]
  }

  /** The body of `logViolation`. */
  function LogPayload(c: Client, rulePack: Option<string>, objectName: Option<string>, transport: Option<string>,
                      severity: Option<string>, status: Option<string>): seq<(string, Value)>
  {
    [("rule_pack", Str(OrDefaultIfBlank(rulePack, "generic"))),
     ("object_name", Str(OrDefault(objectName, DefaultObjectName))),
     ("transport", Str(OrDefault(transport, DefaultTransport))),
     ("developer", Str(c.user)),
     ("severity", Str(OrDefaultIfBlank(severity, "MAJOR"))),
     ("status", Str(OrDefaultIfBlank(status, "not fixed")))]
  }

  /** The keys of a map, in order. */
  function Keys(es: seq<(string, Value)>): (r: seq<string>)
    ensures |r| == |es|
  {
    seq(|es|, i requires 0 <= i < |es| => es[i].0)
  }

  /** A body the backend reads back unchanged: scalars under distinct keys. */
  ghost predicate Sendable(es: seq<(string, Value)>) {
    JsonRoundTrip.Wire(Obj(es))
  }

  /**
   * The `assist` body has its ten keys in this order, asks for the top 6
   * matches, and reads back unchanged.
   */
  lemma AssistPayloadSpec(c: Client, query: Option<string>, code: Option<string>, objectName: Option<string>,
                          transport: Option<string>, logViolations: bool, llmFallbackConfirmed: bool)
    ensures var p := AssistPayload(c, query, code, objectName, transport, logViolations, llmFallbackConfirmed);
      && Keys(p) == ["query", "code", "object_name", "project_id", "pack_name", "developer", "transport",
                     "top_k", "log_violations", "llm_fallback_confirmed"]
      && p[7].1 == Int(6)
      && Sendable(p)
  {
  }

  /**
   * The `validate` body has its eight keys in this order, asks for the top 30
   * matches, and reads back unchanged.
   */
  lemma ValidatePayloadSpec(c: Client, code: Option<string>, objectName: Option<string>, transport: Option<string>,
                            logViolations: bool)
    ensures var p := ValidatePayload(c, code, objectName, transport, logViolations);
      && Keys(p) == ["code", "object_name", "project_id", "pack_name", "developer", "transport", "top_k",
                     "log_violations"]
      && p[6].1 == Int(30)
      && Sendable(p)
  {
  }

  /**
   * The log body has its six keys in this order; its rule pack, severity and
   * status are never blank, and are the ones given unless those are missing
   * or blank.
   */
  lemma LogPayloadSpec(c: Client, rulePack: Option<string>, objectName: Option<string>, transport: Option<string>,
                       severity: Option<string>, status: Option<string>)
    ensures var p := LogPayload(c, rulePack, objectName, transport, severity, status);
      && Keys(p) == ["rule_pack", "object_name", "transport", "developer", "severity", "status"]
      && (forall i :: i in {0, 4, 5} ==> p[i].1.Str? && !IsBlank(p[i].1.s))
      && (rulePack.Some? && !IsBlank(rulePack.value) ==> p[0].1 == Str(rulePack.value))
      && (severity.Some? && !IsBlank(severity.value) ==> p[4].1 == Str(severity.value))
      && (status.Some? && !IsBlank(status.value) ==> p[5].1 == Str(status.value))
      && Sendable(p)
  {
    assert !IsBlank("generic") by { assert !IsWhitespace("generic"[0]); }
    assert !IsBlank("MAJOR") by { assert !IsWhitespace("MAJOR"[0]); }
    assert !IsBlank("not fixed") by { assert !IsWhitespace("not fixed"[0]); }
  }

  // ---------------------------------------------------------------------------
  // The exchange (`postJson`)
  // ---------------------------------------------------------------------------

  /** What is sent: the URL, the `x-hb-user` header and the JSON body. */
  datatype Request = Request(url: string, user: string, body: string)

  /** What comes back: a status and a body, or the exception the transport throws. */
  datatype Exchange = Received(status: int, body: string) | Broken(message: string)

  /** A call returns an outcome, or never returns (when reading the body never ends). */
  datatype Call = Returns(outcome: Outcome) | Hangs

  /** A 2xx status. */
  predicate Accepted(status: int) {
    200 <= status < 300
  }

  /** The request `postJson` sends for a body. */
  function Sent(c: Client, path: string, payload: seq<(string, Value)>): Request {
    Request(c.baseUrl + path, c.user, Serialize(Obj(payload)))
  }

  /**
   * What `postJson` makes of an exchange: the transport's failure, an error
   * naming the status, URL and body for a status outside 2xx, or the map read
   * from the body.
   */
  function Posted(c: Client, path: string, e: Exchange): Call {
    match e
    case Broken(message) => Returns(Failure(message))
    case Received(status, body) =>
      if !Accepted(status) then
        Returns(Failure("Backend API error " + DecimalString(status) + " from " + c.baseUrl + path + ": " + body))
      else
        match ParseObjectText(Some(body))
        case Diverges => Hangs
        case Done(m, _) => Returns(Answer(m))
  }

  /** `postJson`. */
  method PostJson(c: Client, path: string, payload: seq<(string, Value)>, send: Request -> Exchange)
    returns (r: Call)
    ensures r == Posted(c, path, send(Sent(c, path, payload)))
  {
    var body := JsonWriter.Stringify(payload);
    var e := send(Request(c.baseUrl + path, c.user, body));
    match e
    case Broken(message) =>
      r := Returns(Failure(message));
    case Received(status, text) =>
      if status < 200 || status >= 300 {
        r := Returns(Failure("Backend API error " + DecimalString(status) + " from " + c.baseUrl + path + ": " + text));
      } else {
        var parsed := JsonParser.ParseJsonObject(Some(text));
        r := if parsed.Diverges? then Hangs else Returns(Answer(parsed.value));
      }
  }

  /**
   * A call answers exactly when the transport got a 2xx status and the body
   * reads to its end; every other status fails with a message that starts
   * by naming the error and ends with the body.
   */
  lemma PostedSpec(c: Client, path: string, e: Exchange)
    ensures Posted(c, path, e).Returns? && Posted(c, path, e).outcome.Answer? <==>
      e.Received? && Accepted(e.status) && ParseObjectText(Some(e.body)).Done?
    ensures e.Received? && !Accepted(e.status) ==>
      var m := Posted(c, path, e).outcome.message;
      StartsWith(m, "Backend API error ") && EndsWith(m, ": " + e.body)
  {
    if e.Received? && !Accepted(e.status) {
      var m := Posted(c, path, e).outcome.message;
      var head := "Backend API error " + DecimalString(e.status) + " from " + c.baseUrl + path;
      assert m == head + (": " + e.body);
      assert m[..18] == head[..18] == "Backend API error ";
    }
  }

  /** A 2xx reply whose body is a written map of scalars gives back that map. */
  lemma PostedRoundTrip(c: Client, path: string, status: int, es: seq<(string, Value)>)
    requires Accepted(status) && Sendable(es)
    ensures Posted(c, path, Received(status, Serialize(Obj(es)))) == Returns(Answer(es))
  {
    JsonRoundTrip.ObjectRoundTrip(es);
  }

  // ---------------------------------------------------------------------------
  // The endpoints
  // ---------------------------------------------------------------------------

  const AssistPath: string := "/api/bot/assist"
  const ValidatePath: string := "/api/bot/validate"
  const ViolationsPath: string := "/api/dashboard/violations"

  /** `assist`; the five-argument form passes `false` for the fallback confirmation. */
  method Assist(c: Client, query: Option<string>, code: Option<string>, objectName: Option<string>,
                transport: Option<string>, logViolations: bool, llmFallbackConfirmed: bool, send: Request -> Exchange)
    returns (r: Call)
    ensures r == Posted(c, AssistPath,
                        send(Sent(c, AssistPath, AssistPayload(c, query, code, objectName, transport, logViolations,
                                                               llmFallbackConfirmed))))
  {
    r := PostJson(c, AssistPath, AssistPayload(c, query, code, objectName, transport, logViolations,
                                               llmFallbackConfirmed), send);
  }

  /** `validate`; the three-argument form passes `true` for logging. */
  method Validate(c: Client, code: Option<string>, objectName: Option<string>, transport: Option<string>,
                  logViolations: bool, send: Request -> Exchange) returns (r: Call)
    ensures r == Posted(c, ValidatePath,
                        send(Sent(c, ValidatePath, ValidatePayload(c, code, objectName, transport, logViolations))))
  {
    r := PostJson(c, ValidatePath, ValidatePayload(c, code, objectName, transport, logViolations), send);
  }

  /**
   * `logViolation`; the four-argument form passes `not fixed`. The map read
   * back is dropped by the caller: only a failure matters.
   */
  method LogViolation(c: Client, rulePack: Option<string>, objectName: Option<string>, transport: Option<string>,
                      severity: Option<string>, status: Option<string>, send: Request -> Exchange) returns (r: Call)
    ensures r == Posted(c, ViolationsPath,
                        send(Sent(c, ViolationsPath, LogPayload(c, rulePack, objectName, transport, severity, status))))
  {
    r := PostJson(c, ViolationsPath, LogPayload(c, rulePack, objectName, transport, severity, status), send);
  }

  /** `markViolationFixed`: a log of the generic rule pack as MAJOR and fixed. */
  method MarkViolationFixed(c: Client, objectName: Option<string>, transport: Option<string>, send: Request -> Exchange)
    returns (r: Call)
    ensures var p := LogPayload(c, Some("generic"), objectName, transport, Some("MAJOR"), Some("fixed"));
      && r == Posted(c, ViolationsPath, send(Sent(c, ViolationsPath, p)))
      && p[0].1 == Str("generic") && p[4].1 == Str("MAJOR") && p[5].1 == Str("fixed")
  {
    r := LogViolation(c, Some("generic"), objectName, transport, Some("MAJOR"), Some("fixed"), send);
    assert !IsWhitespace("fixed"[0]);
    LogPayloadSpec(c, Some("generic"), objectName, transport, Some("MAJOR"), Some("fixed"));
  }
}
