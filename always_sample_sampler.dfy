/** openconsensus.opencensusshim.trace.samplers.AlwaysSampleSampler: the
    sampler that decides "yes" for every span. It has no fields, so it is
    modelled as a module of functions; nothing it does changes any state. */
module AlwaysSampleSampler {
  import opened Wrappers

  /** The inputs of a sampling decision, opaque to this sampler. */
  datatype TraceId = TraceId(handle: nat)
  datatype SpanId = SpanId(handle: nat)
  datatype SpanContext = SpanContext(handle: nat)
  datatype Span = Span(handle: nat)

  /** shouldSample: "yes" for every input, including a null parent context
      and a null hasRemoteParent. */
  function ShouldSample(
    parentContext: Option<SpanContext>,
    hasRemoteParent: Option<bool>,
    traceId: TraceId,
    spanId: SpanId,
    name: string,
    parentLinks: seq<Span>): (sampled: bool)
    ensures sampled
  {
    true
  }

  /** The decision depends on no input: any two calls agree. */
  lemma ShouldSampleIgnoresInputs(
    p1: Option<SpanContext>, r1: Option<bool>, t1: TraceId, s1: SpanId, n1: string, l1: seq<Span>,
    p2: Option<SpanContext>, r2: Option<bool>, t2: TraceId, s2: SpanId, n2: string, l2: seq<Span>)
    ensures ShouldSample(p1, r1, t1, s1, n1, l1) == ShouldSample(p2, r2, t2, s2, n2, l2)
  {
  }

  /** toString: the sampler's fixed, non-empty name. */
  function ToString(): (s: string)
    ensures s == "AlwaysSampleSampler"
    ensures |s| > 0
  {
    "AlwaysSampleSampler"
  }

  /** getDescription: the same text as toString. */
  function GetDescription(): (d: string)
    ensures d == ToString()
    ensures d == "AlwaysSampleSampler"
  {
    ToString()
  }
}
