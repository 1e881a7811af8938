/**
  The provider-independent contracts shared by every gateway subsystem.
  Monetary amounts, times in seconds and scores are reals; token counts and
  millisecond budgets are integers, as in the source.
*/
module Domain {

  datatype Option<+T> = None | Some(value: T)

  type RouteId = string
  type ReleaseId = string
  type Schema = string // canonical JSON text of a response schema

  /** A decoded JSON value: only "is it an object" matters to the gateway. */
  datatype Json = Object(body: string) | NonObject(body: string)

  datatype Capability = Text | Streaming | StructuredOutput | Tools | Vision
  datatype Classification = Public | Internal | Confidential | Restricted
  datatype PrivacyMode = Standard | ZeroRetention | LocalOnly
  datatype CacheMode = Default | Bypass | Refresh

  datatype Message = Message(role: string, content: string, name: Option<string>)
  datatype ArtifactRef = ArtifactRef(name: string, version: Option<string>)

  datatype Request = Request(
    tenantId: string,
    requestId: string,
    messages: seq<Message>,
    prompt: Option<ArtifactRef>,
    requiredCapabilities: set<Capability>,
    classification: Classification,
    privacyMode: PrivacyMode,
    allowedRegions: set<string>,
    maxCostUsd: real,
    maxLatencyMs: int,
    maxOutputTokens: int,
    temperature: Option<real>,
    stream: bool,
    responseSchema: Option<Schema>,
    cacheMode: CacheMode,
    shadowEnabled: bool)
  {
    /** The field constraints and the capability inference of the request model. */
    predicate Valid() {
      && 0.0 <= maxCostUsd <= 1000.0
      && 50 <= maxLatencyMs <= 600_000
      && 1 <= maxOutputTokens <= 131_072
      && Text in requiredCapabilities
      && (stream ==> Streaming in requiredCapabilities)
      && (responseSchema.Some? ==> StructuredOutput in requiredCapabilities)
    }
  }

  datatype Route = Route(
    id: RouteId,
    provider: string,
    model: string,
    capabilities: set<Capability>,
    regions: set<string>,
    contextWindow: int,
    inputCostPerMillion: real,
    outputCostPerMillion: real,
    expectedP95LatencyMs: int,
    qualityScore: real,
    privacyModes: set<PrivacyMode>,
    enabled: bool)
  {
    predicate Valid() {
      && contextWindow > 0
      && inputCostPerMillion >= 0.0
      && outputCostPerMillion >= 0.0
      && expectedP95LatencyMs > 0
      && 0.0 <= qualityScore <= 1.0
    }
  }

  datatype Usage = Usage(inputTokens: int, outputTokens: int, costUsd: real)

  datatype Response = Response(
    requestId: string,
    routeId: RouteId,
    provider: string,
    model: string,
    text: string,
    parsed: Option<Json>,
    schemaValid: Option<bool>,
    usage: Usage,
    ttftMs: real,
    latencyMs: real,
    cacheHit: bool,
    fallbackCount: int,
    routingRegret: real)

  /** One row of the request evidence ledger. */
  datatype Metric = Metric(
    requestId: string,
    tenantId: string,
    routeId: RouteId,
    provider: string,
    success: bool,
    schemaValid: Option<bool>,
    cacheHit: bool,
    canary: bool,
    releaseId: Option<ReleaseId>,
    shadow: bool,
    usage: Usage,
    ttftMs: real,
    latencyMs: real,
    routingRegret: real,
    fallbackCount: int,
    errorCode: Option<string>)

  function Max(a: int, b: int): int { if a >= b then a else b }
  function MinReal(a: real, b: real): real { if a <= b then a else b }
  function MaxReal(a: real, b: real): real { if a >= b then a else b }

  /** The ids of a list of routes, in order. */
  function RouteIds(routes: seq<Route>): (ids: seq<RouteId>)
    ensures |ids| == |routes|
    ensures forall i :: 0 <= i < |routes| ==> ids[i] == routes[i].id
  {
    seq(|routes|, i requires 0 <= i < |routes| => routes[i].id)
  }

  ghost predicate Distinct<T>(s: seq<T>) {
    forall i, j :: 0 <= i < j < |s| ==> s[i] != s[j]
  }
}
