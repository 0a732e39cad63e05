/**
 An abstract view of the tracing SDK objects this layer touches. A span is a
 record of the attribute log written to it and of how often it was started,
 ended and written to; a context is the value that carries the current span.
 Sampling, batching, export and propagation belong to the SDK and are not here.
 */
module Otel {
  import opened Wrappers
  import opened Attributes

  /** The two facts about a span context this layer inspects: whether its
      trace ID and its span ID are non-zero. */
  datatype SpanContext = SpanContext(hasTraceId: bool, hasSpanId: bool)
  {
    /** `SpanContext.IsValid`: both IDs are present. */
    predicate IsValid() {
      hasTraceId && hasSpanId
    }
  }

  /** The span context of the non-recording span the SDK hands out when a
      context carries no span: it has neither ID. */
  const InvalidSpanContext := SpanContext(false, false)

  datatype Span = Span(
    spanContext: SpanContext,
    name: string,
    parent: Context,
    attributes: seq<KeyValue>,
    setCalls: nat,
    started: nat,
    ended: nat)

  /** A `context.Context`, reduced to the span it carries, if any. */
  datatype Context = Context(span: Option<Span>)

  /** `context.Background()`: carries no span. */
  const Background := Context(None)

  /** The process-wide tracer handle; the Go package variable `Tracer` is an
      `Option<Tracer>`, `None` until the provider is initialised. */
  datatype Tracer = Tracer

  /** `trace.SpanContextFromContext`: the carried span's context, or the
      invalid one when the context carries no span. */
  function SpanContextOf(ctx: Context): (sc: SpanContext)
    ensures ctx.span.None? ==> !sc.hasTraceId && !sc.hasSpanId && !sc.IsValid()
    ensures ctx.span.Some? ==> sc == ctx.span.value.spanContext
  {
    match ctx.span
    case None => InvalidSpanContext
    case Some(s) => s.spanContext
  }

  /** `span.SetAttributes(attrs...)`: appends to the span's attribute log and
      records one more write; nothing else about the span changes. */
  function SetAttributes(s: Span, attrs: seq<KeyValue>): (r: Span)
    ensures |r.attributes| == |s.attributes| + |attrs|
    ensures r.attributes[..|s.attributes|] == s.attributes
    ensures r.attributes[|s.attributes|..] == attrs
    ensures r.setCalls == s.setCalls + 1
    ensures r.(attributes := s.attributes, setCalls := s.setCalls) == s
  {
    s.(attributes := s.attributes + attrs, setCalls := s.setCalls + 1)
  }

  /** `tracer.Start(parent, name)`: a fresh, started, not yet ended span that
      is a child of `parent`, and the context that carries it. The tracer the
      provider installs samples every span, so the new span context is valid
      (it has both a trace ID and a span ID). */
  function Start(t: Tracer, parent: Context, name: string): (r: (Context, Span))
    ensures r.0.span == Some(r.1)
    ensures r.1.parent == parent && r.1.name == name
    ensures r.1.started == 1 && r.1.ended == 0
    ensures r.1.attributes == [] && r.1.setCalls == 0
    ensures SpanContextOf(r.0).IsValid()
  {
    var s := Span(SpanContext(true, true), name, parent, [], 0, 1, 0);
    (Context(Some(s)), s)
  }

  /** `span.End()`: records one more end and changes nothing else. */
  function End(s: Span): (r: Span)
    ensures r.ended == s.ended + 1
    ensures r.(ended := s.ended) == s
  {
    s.(ended := s.ended + 1)
  }
}
