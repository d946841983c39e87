/** `LuminaError` and its conversion into an HTTP response (src/error.rs).
    Each variant's payload is the Display text of the error it wraps. */
module Errors {
  import opened Results
  import opened Http

  datatype LuminaError =
    | ConfigError(io: string)
    | YamlError(yaml: string)
    | InvalidRoute(msg: string)
    | UpstreamError(cause: string)
    | Internal(cause: string)

  /** The text the `#[error(...)]` attribute puts before the payload. */
  function Prefix(e: LuminaError): string
  {
    match e
    case ConfigError(_) => "Configuration error: "
    case YamlError(_) => "YAML parsing error: "
    case InvalidRoute(_) => "Invalid route mapping: "
    case UpstreamError(_) => "Upstream service unreachable: "
    case Internal(_) => "Internal Server Error: "
  }

  function Payload(e: LuminaError): string
  {
    match e
    case ConfigError(s) => s
    case YamlError(s) => s
    case InvalidRoute(s) => s
    case UpstreamError(s) => s
    case Internal(s) => s
  }

  /** `Display` as derived by `thiserror`: the variant's prefix, then its payload. */
  function Display(e: LuminaError): (s: string)
    ensures |s| == |Prefix(e)| + |Payload(e)|
    ensures s[..|Prefix(e)|] == Prefix(e) && s[|Prefix(e)|..] == Payload(e)
  {
    Prefix(e) + Payload(e)
  }

  /** The first three characters of each prefix, all distinct. */
  function Lead(e: LuminaError): string
  {
    match e
    case ConfigError(_) => "Con"
    case YamlError(_) => "YAM"
    case InvalidRoute(_) => "Inv"
    case UpstreamError(_) => "Ups"
    case Internal(_) => "Int"
  }

  lemma LeadOfPrefix(e: LuminaError)
    ensures Prefix(e)[..3] == Lead(e)
  {
  }

  /** The first three characters of a prefix already tell the variants apart. */
  lemma PrefixesDifferEarly(a: LuminaError, b: LuminaError)
    ensures Prefix(a)[..3] == Prefix(b)[..3] ==> Prefix(a) == Prefix(b)
  {
    LeadOfPrefix(a);
    LeadOfPrefix(b);
    if Lead(a) == Lead(b) {
      assert Lead(a)[2] == Lead(b)[2] && Lead(a)[0] == Lead(b)[0];
    }
  }

  /** Two errors with the same Display text are the same error: no prefix is a
      prefix of another, so the text determines the variant and the payload. */
  lemma {:induction false} DisplayInjective(a: LuminaError, b: LuminaError)
    requires Display(a) == Display(b)
    ensures a == b
  {
    var s := Display(a);
    var pa, pb := Prefix(a), Prefix(b);
    assert pa[..3] == s[..3] == pb[..3];
    PrefixesDifferEarly(a, b);
    assert Payload(a) == s[|pa|..] == Payload(b);
  }

  const SanitizedMessages: set<string> := {"Configuration error", "Upstream error", "Internal server error"}

  /** The (status, message) table of `into_response`. Only `InvalidRoute`
      shows its own text; every other variant gets a fixed message, so its
      payload never reaches the client. */
  function Classify(e: LuminaError): (r: (StatusCode, string))
    ensures r.0 in {404, 500, 502}
    ensures r.0 == 404 <==> e.InvalidRoute?
    ensures r.0 == 502 <==> e.UpstreamError?
    ensures e.InvalidRoute? ==> r.1 == e.msg
    ensures !e.InvalidRoute? ==> r.1 in SanitizedMessages
    ensures e.ConfigError? || e.YamlError? ==> r.1 == "Configuration error"
    ensures e.UpstreamError? ==> r.1 == "Upstream error"
    ensures e.Internal? ==> r.1 == "Internal server error"
  {
    match e
    case ConfigError(_) => (500, "Configuration error")
    case YamlError(_) => (500, "Configuration error")
    case InvalidRoute(msg) => (404, msg)
    case UpstreamError(_) => (502, "Upstream error")
    case Internal(_) => (500, "Internal server error")
  }

  /** The JSON document `{"error": message, "status": status}`; serde_json's
      default map keeps keys sorted, so `error` comes first. */
  function ErrorDocument(message: string, status: StatusCode): JsonValue
  {
    JObject([("error", JString(message)), ("status", JNumber(status))])
  }

  /** `into_response`: the classified status, a JSON body whose members are
      exactly `error` and `status`, with `status` equal to the response's own
      status; axum's `Json` adds the content type. */
  function IntoResponse(e: LuminaError): (r: Response)
    ensures r.status == Classify(e).0
    ensures r.headers == map["content-type" := "application/json"]
    ensures r.body.Json? && r.body.document.JObject?
    ensures var members := r.body.document.members;
      && |members| == 2
      && MemberNames(members) == {"error", "status"}
      && Field(members, "status") == Some(JNumber(r.status))
      && Field(members, "error") == Some(JString(Classify(e).1))
  {
    var (status, message) := Classify(e);
    var document := ErrorDocument(message, status);
    assert MemberNames(document.members) == {"error", "status"} by {
      assert document.members[0].0 == "error" && document.members[1].0 == "status";
    }
    Response(status, map["content-type" := "application/json"], Json(document))
  }

  /** Only `InvalidRoute` exposes its payload: two errors of any other variant
      that differ only in their payload produce the same response. */
  lemma PayloadNeverExposed(a: LuminaError, b: LuminaError)
    requires !a.InvalidRoute? && Prefix(a) == Prefix(b)
    ensures IntoResponse(a) == IntoResponse(b)
  {
  }
}
