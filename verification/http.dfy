/**
 The HTTP side of the instrumentation layer: the span-name formatters handed to
 the instrumented transport, the extraction of request fields into span
 attributes, and the response hook that writes them to the request's span.
 */
module Http {
  import opened Wrappers
  import opened Attributes
  import opened Otel

  /** One field of a multi-valued Go map (`http.Header`, `url.Values`): a name
      and its values in order. Go leaves map iteration order unspecified, so a
      map is the sequence of fields in the order one range loop visits them;
      no property below depends on that order. */
  datatype Field = Field(name: string, values: seq<string>)

  type MultiMap = seq<Field>

  datatype Url = Url(scheme: string, host: string, path: string)

  /** An HTTP request with its query, form and post-form fields already parsed,
      and the context it carries. */
  datatype Request = Request(
    verb: string,
    url: Url,
    header: MultiMap,
    query: MultiMap,
    form: MultiMap,
    postForm: MultiMap,
    ctx: Context)

  /** `ContentLength` is -1 when the length is unknown; it is recorded as is. */
  datatype Response = Response(request: Request, contentLength: Int64)

  // ---------------------------------------------------------------------------
  // Span names
  // ---------------------------------------------------------------------------

  /** The default formatter: `Call: <scheme>://<host><path> <method>`. The
      operation name the transport passes in is ignored. Total: every
      component may be empty. */
  function DefaultSpanName(operation: string, req: Request): (name: string)
    ensures |name| == 10 + |req.url.scheme| + |req.url.host| + |req.url.path| + |req.verb|
    ensures name[..6] == "Call: "
    ensures name[6..6 + |req.url.scheme|] == req.url.scheme
    ensures name[6 + |req.url.scheme|..|name| - |req.verb| - 1] == "://" + req.url.host + req.url.path
    ensures name[|name| - |req.verb| - 1..] == " " + req.verb
  {
    var head := "Call: " + req.url.scheme;
    var target := "://" + req.url.host + req.url.path;
    var tail := " " + req.verb;
    assert (head + target + tail)[..|head|] == head;
    assert (head + target + tail)[|head|..|head| + |target|] == target;
    assert (head + target + tail)[|head| + |target|..] == tail;
    head + target + tail
  }

  /** The formatter installed by `NewOtelHttpTransportWithServiceName`:
      `<serviceName>: <path> <method>`. Total: every component may be empty. */
  function ServiceSpanName(serviceName: string, operation: string, req: Request): (name: string)
    ensures |name| == |serviceName| + 3 + |req.url.path| + |req.verb|
    ensures name[..|serviceName|] == serviceName
    ensures name[|serviceName|..|serviceName| + 2] == ": "
    ensures name[|serviceName| + 2..|name| - |req.verb| - 1] == req.url.path
    ensures name[|name| - |req.verb| - 1..] == " " + req.verb
  {
    var head := serviceName + ": ";
    var tail := " " + req.verb;
    assert (head + req.url.path + tail)[..|head|] == head;
    assert (head + req.url.path + tail)[|head|..|head| + |req.url.path|] == req.url.path;
    assert (head + req.url.path + tail)[|head| + |req.url.path|..] == tail;
    head + req.url.path + tail
  }

  /** The part of a span name after its last space: where both formatters put
      the request method. */
  function MethodOfSpanName(name: string): (m: string)
    ensures ' ' !in m
    ensures |m| <= |name| && name[|name| - |m|..] == m
    ensures |m| < |name| ==> name[|name| - |m| - 1] == ' '
  {
    if |name| == 0 then []
    else if name[|name| - 1] == ' ' then []
    else MethodOfSpanName(name[..|name| - 1]) + [name[|name| - 1]]
  }

  lemma {:induction false} MethodOfSpanNameAfterSpace(p: string, m: string)
    requires ' ' !in m
    ensures MethodOfSpanName(p + " " + m) == m
    decreases |m|
  {
    var s := p + " " + m;
    if |m| == 0 {
      assert s[|s| - 1] == ' ';
    } else {
      var m' := m[..|m| - 1];
      assert s[..|s| - 1] == p + " " + m';
      assert s[|s| - 1] == m[|m| - 1];
      MethodOfSpanNameAfterSpace(p, m');
      assert m == m' + [m[|m| - 1]];
    }
  }

  /** An HTTP method is a token and holds no space, so the method can be read
      back from a default span name. */
  lemma DefaultSpanNameMethod(operation: string, req: Request)
    requires ' ' !in req.verb
    ensures MethodOfSpanName(DefaultSpanName(operation, req)) == req.verb
  {
    var p := "Call: " + req.url.scheme + "://" + req.url.host + req.url.path;
    assert DefaultSpanName(operation, req) == p + " " + req.verb;
    MethodOfSpanNameAfterSpace(p, req.verb);
  }

  /** The same read-back for the service-name formatter. */
  lemma ServiceSpanNameMethod(serviceName: string, operation: string, req: Request)
    requires ' ' !in req.verb
    ensures MethodOfSpanName(ServiceSpanName(serviceName, operation, req)) == req.verb
  {
    var p := serviceName + ": " + req.url.path;
    assert ServiceSpanName(serviceName, operation, req) == p + " " + req.verb;
    MethodOfSpanNameAfterSpace(p, req.verb);
  }

  // ---------------------------------------------------------------------------
  // Attribute keys
  // ---------------------------------------------------------------------------

  /** The four request sources, in the order the extractor visits them. */
  datatype Category = Header | Query | Form | PostForm

  function Rank(c: Category): nat {
    match c
    case Header => 0
    case Query => 1
    case Form => 2
    case PostForm => 3
  }

  function Prefix(c: Category): string {
    match c
    case Header => "http.request.header."
    case Query => "http.request.query."
    case Form => "http.request.form."
    case PostForm => "http.request.postForm."
  }

  predicate IsUpper(ch: char) {
    'A' <= ch <= 'Z'
  }

  /** ASCII case mapping; header names are HTTP tokens, hence ASCII. */
  function LowerChar(ch: char): char {
    if IsUpper(ch) then (ch as int + 32) as char else ch
  }

  /** `strings.ToLower` on ASCII text. */
  function ToLower(s: string): (r: string)
    ensures |r| == |s|
    ensures forall i :: 0 <= i < |s| ==> r[i] == LowerChar(s[i])
    ensures forall i :: 0 <= i < |r| ==> !IsUpper(r[i])
  {
    if |s| == 0 then [] else [LowerChar(s[0])] + ToLower(s[1..])
  }

  /** The attribute key of a field: the category's namespace followed by the
      field name, lower-cased for headers and verbatim otherwise. */
  function AttributeKey(c: Category, name: string): (key: string)
    ensures |key| == |Prefix(c)| + |name|
    ensures key[..|Prefix(c)|] == Prefix(c)
    ensures c == Header ==> forall i :: 0 <= i < |name| ==> key[|Prefix(c)| + i] == LowerChar(name[i])
    ensures c == Header ==> forall i :: |Prefix(c)| <= i < |key| ==> !IsUpper(key[i])
    ensures c != Header ==> key[|Prefix(c)|..] == name
  {
    Prefix(c) + (if c == Header then ToLower(name) else name)
  }

  /** Reads the category back from a key by its namespace prefix. */
  function CategoryOfKey(key: string): Option<Category> {
    if Prefix(Header) <= key then Some(Header)
    else if Prefix(Query) <= key then Some(Query)
    else if Prefix(Form) <= key then Some(Form)
    else if Prefix(PostForm) <= key then Some(PostForm)
    else None
  }

  /** Position of a key in the category order; keys outside the four
      namespaces would come last. */
  function KeyRank(key: string): nat {
    match CategoryOfKey(key)
    case Some(c) => Rank(c)
    case None => 4
  }

  /** The four namespaces differ at their 14th character, so none is a
      prefix of a key in another. */
  lemma PrefixExcludes(c: Category, c': Category, key: string)
    requires Prefix(c) <= key && c' != c
    ensures !(Prefix(c') <= key)
  {
    assert key[13] == Prefix(c)[13];
    assert Prefix(c)[13] != Prefix(c')[13];
  }

  /** Every key built for a category is read back as that category. */
  lemma CategoryOfAttributeKey(c: Category, name: string)
    ensures CategoryOfKey(AttributeKey(c, name)) == Some(c)
  {
    var key := AttributeKey(c, name);
    assert Prefix(c) <= key;
    if c != Header { PrefixExcludes(c, Header, key); }
    if c != Query { PrefixExcludes(c, Query, key); }
    if c != Form { PrefixExcludes(c, Form, key); }
  }

  // ---------------------------------------------------------------------------
  // Extraction
  // ---------------------------------------------------------------------------

  /** The number of values in a multi-map, counting a multi-valued field once
      per value. */
  function ValueCount(m: MultiMap): nat {
    if |m| == 0 then 0 else |m[0].values| + ValueCount(m[1..])
  }

  /** The inner range loop: one string attribute per value, in order. */
  function ValueAttributes(key: string, values: seq<string>): (r: seq<KeyValue>)
    ensures |r| == |values|
    ensures forall i :: 0 <= i < |r| ==> r[i] == String(key, values[i])
  {
    if |values| == 0 then [] else [String(key, values[0])] + ValueAttributes(key, values[1..])
  }

  /** The outer range loop over one multi-map. */
  function CategoryAttributes(c: Category, m: MultiMap): (r: seq<KeyValue>)
    ensures |r| == ValueCount(m)
    ensures forall i :: 0 <= i < |r| ==> r[i].value.StringValue?
  {
    if |m| == 0 then []
    else ValueAttributes(AttributeKey(c, m[0].name), m[0].values) + CategoryAttributes(c, m[1..])
  }

  /** `kv` is the attribute of one value of field `f` in category `c`. */
  predicate FromField(c: Category, f: Field, kv: KeyValue) {
    kv.key == AttributeKey(c, f.name) && kv.value.StringValue? && kv.value.s in f.values
  }

  /** `kv` is the attribute of one value of some field of `m`. */
  predicate Carries(c: Category, m: MultiMap, kv: KeyValue) {
    exists j :: 0 <= j < |m| && FromField(c, m[j], kv)
  }

  lemma ValueAttributesMembers(c: Category, f: Field, kv: KeyValue)
    ensures kv in ValueAttributes(AttributeKey(c, f.name), f.values) <==> FromField(c, f, kv)
  {
    var key := AttributeKey(c, f.name);
    var va := ValueAttributes(key, f.values);
    if FromField(c, f, kv) {
      var i :| 0 <= i < |f.values| && f.values[i] == kv.value.s;
      assert va[i] == kv;
    }
  }

  /** One attribute per value of one field, and nothing else. */
  lemma {:induction false} CategoryAttributesMembers(c: Category, m: MultiMap, kv: KeyValue)
    ensures kv in CategoryAttributes(c, m) <==> Carries(c, m, kv)
  {
    if |m| > 0 {
      CategoryAttributesMembers(c, m[1..], kv);
      ValueAttributesMembers(c, m[0], kv);
      if Carries(c, m, kv) {
        var j :| 0 <= j < |m| && FromField(c, m[j], kv);
        if j > 0 {
          assert m[1..][j - 1] == m[j];
        }
      }
      if Carries(c, m[1..], kv) {
        var j :| 0 <= j < |m[1..]| && FromField(c, m[1..][j], kv);
        assert m[j + 1] == m[1..][j];
      }
    }
  }

  /** How many values of field `f` give the attribute `kv` in category `c`:
      the occurrences of `kv`'s string among the field's values, when `kv`
      has the field's key; none otherwise. */
  function FieldMultiplicity(c: Category, f: Field, kv: KeyValue): nat {
    if kv.key == AttributeKey(c, f.name) && kv.value.StringValue? then multiset(f.values)[kv.value.s] else 0
  }

  /** How many values of the whole multi-map give the attribute `kv`. */
  function Multiplicity(c: Category, m: MultiMap, kv: KeyValue): nat {
    if |m| == 0 then 0 else FieldMultiplicity(c, m[0], kv) + Multiplicity(c, m[1..], kv)
  }

  /** The inner loop writes each value once per occurrence. */
  lemma {:induction false} ValueAttributesMultiplicity(key: string, values: seq<string>, kv: KeyValue)
    ensures multiset(ValueAttributes(key, values))[kv] ==
      if kv.key == key && kv.value.StringValue? then multiset(values)[kv.value.s] else 0
  {
    if |values| > 0 {
      ValueAttributesMultiplicity(key, values[1..], kv);
      var rest := ValueAttributes(key, values[1..]);
      assert values == [values[0]] + values[1..];
      assert ValueAttributes(key, values) == [String(key, values[0])] + rest;
    }
  }

  /** One category's list holds each attribute exactly as often as values of
      the multi-map give it: nothing is dropped, added or deduplicated. */
  lemma {:induction false} CategoryAttributesMultiplicity(c: Category, m: MultiMap, kv: KeyValue)
    ensures multiset(CategoryAttributes(c, m))[kv] == Multiplicity(c, m, kv)
  {
    if |m| > 0 {
      CategoryAttributesMultiplicity(c, m[1..], kv);
      ValueAttributesMultiplicity(AttributeKey(c, m[0].name), m[0].values, kv);
    }
  }

  lemma CategoryAttributesKeys(c: Category, m: MultiMap)
    ensures forall i :: 0 <= i < |CategoryAttributes(c, m)| ==>
      CategoryOfKey(CategoryAttributes(c, m)[i].key) == Some(c)
  {
    var r := CategoryAttributes(c, m);
    forall i | 0 <= i < |r|
      ensures CategoryOfKey(r[i].key) == Some(c)
    {
      CategoryAttributesMembers(c, m, r[i]);
      var j :| 0 <= j < |m| && FromField(c, m[j], r[i]);
      CategoryOfAttributeKey(c, m[j].name);
    }
  }

  /** One category of the request, behind the source's `len(...) > 0` guard.
      The guard changes nothing: an empty map has no values to write. */
  function Guarded(c: Category, m: MultiMap): (r: seq<KeyValue>)
    ensures r == CategoryAttributes(c, m)
    ensures |r| == ValueCount(m)
  {
    if |m| > 0 then CategoryAttributes(c, m) else []
  }

  /** `ExtractOtelAttributesFromRequest`: headers, then query parameters, then
      form fields, then post-form fields; one string attribute per value. */
  function ExtractOtelAttributesFromRequest(req: Request): (r: seq<KeyValue>)
    ensures |r| == ValueCount(req.header) + ValueCount(req.query) + ValueCount(req.form) + ValueCount(req.postForm)
    ensures forall i :: 0 <= i < |r| ==> r[i].value.StringValue?
  {
    Guarded(Header, req.header) + Guarded(Query, req.query) + Guarded(Form, req.form) + Guarded(PostForm, req.postForm)
  }

  /** No fields, no attributes; and conversely. */
  lemma ExtractEmpty(req: Request)
    ensures ExtractOtelAttributesFromRequest(req) == [] <==>
      ValueCount(req.header) + ValueCount(req.query) + ValueCount(req.form) + ValueCount(req.postForm) == 0
    ensures req.header == [] && req.query == [] && req.form == [] && req.postForm == [] ==>
      ExtractOtelAttributesFromRequest(req) == []
  {
  }

  /** Exactly the attributes of the values of the four maps, keyed by their
      category's namespace. */
  lemma ExtractMembers(req: Request, kv: KeyValue)
    ensures kv in ExtractOtelAttributesFromRequest(req) <==>
      || Carries(Header, req.header, kv)
      || Carries(Query, req.query, kv)
      || Carries(Form, req.form, kv)
      || Carries(PostForm, req.postForm, kv)
  {
    CategoryAttributesMembers(Header, req.header, kv);
    CategoryAttributesMembers(Query, req.query, kv);
    CategoryAttributesMembers(Form, req.form, kv);
    CategoryAttributesMembers(PostForm, req.postForm, kv);
  }

  /** The request's list holds each attribute exactly as often as values of
      the four maps give it. */
  lemma ExtractMultiplicity(req: Request, kv: KeyValue)
    ensures multiset(ExtractOtelAttributesFromRequest(req))[kv] ==
      Multiplicity(Header, req.header, kv) + Multiplicity(Query, req.query, kv)
      + Multiplicity(Form, req.form, kv) + Multiplicity(PostForm, req.postForm, kv)
  {
    CategoryAttributesMultiplicity(Header, req.header, kv);
    CategoryAttributesMultiplicity(Query, req.query, kv);
    CategoryAttributesMultiplicity(Form, req.form, kv);
    CategoryAttributesMultiplicity(PostForm, req.postForm, kv);
  }

  /** Every key of `s` lies in the namespace of category `c`. */
  predicate InCategory(s: seq<KeyValue>, c: Category) {
    forall i :: 0 <= i < |s| ==> CategoryOfKey(s[i].key) == Some(c)
  }

  /** Four lists, each within one namespace, joined in category order. */
  lemma ConcatOrdered(h: seq<KeyValue>, q: seq<KeyValue>, f: seq<KeyValue>, p: seq<KeyValue>)
    requires InCategory(h, Header) && InCategory(q, Query) && InCategory(f, Form) && InCategory(p, PostForm)
    ensures var r := h + q + f + p;
      && (forall i :: 0 <= i < |r| ==> CategoryOfKey(r[i].key).Some?)
      && (forall i, j :: 0 <= i < j < |r| ==> KeyRank(r[i].key) <= KeyRank(r[j].key))
  {
    var r := h + q + f + p;
    forall i | 0 <= i < |r|
      ensures CategoryOfKey(r[i].key).Some?
      ensures KeyRank(r[i].key) == if i < |h| then 0 else if i < |h| + |q| then 1
        else if i < |h| + |q| + |f| then 2 else 3
    {
      if i < |h| {
        assert r[i] == h[i];
      } else if i < |h| + |q| {
        assert r[i] == q[i - |h|];
      } else if i < |h| + |q| + |f| {
        assert r[i] == f[i - |h| - |q|];
      } else {
        assert r[i] == p[i - |h| - |q| - |f|];
      }
    }
  }

  /** Every header attribute precedes every query attribute, which precede
      every form attribute, which precede every post-form attribute. */
  lemma ExtractOrdered(req: Request)
    ensures var r := ExtractOtelAttributesFromRequest(req);
      && (forall i :: 0 <= i < |r| ==> CategoryOfKey(r[i].key).Some?)
      && (forall i, j :: 0 <= i < j < |r| ==> KeyRank(r[i].key) <= KeyRank(r[j].key))
  {
    CategoryAttributesKeys(Header, req.header);
    CategoryAttributesKeys(Query, req.query);
    CategoryAttributesKeys(Form, req.form);
    CategoryAttributesKeys(PostForm, req.postForm);
    ConcatOrdered(CategoryAttributes(Header, req.header), CategoryAttributes(Query, req.query),
      CategoryAttributes(Form, req.form), CategoryAttributes(PostForm, req.postForm));
  }

  // ---------------------------------------------------------------------------
  // Response hook
  // ---------------------------------------------------------------------------

  /** The key of the semantic-conventions helper `HTTPResponseContentLength`. */
  const ResponseContentLengthKey: string := "http.response_content_length"

  function ContentLengthAttribute(n: Int64): KeyValue {
    KeyValue(ResponseContentLengthKey, Int64Value(n))
  }

  /** `ExtractOtelAttributesFromResponse`: when a tracer is installed and the
      request's context carries a valid span, writes the request attributes
      (only if there are any) and then the response content length to that
      span. Only the span in the request's context can change. */
  function ExtractOtelAttributesFromResponse(tracer: Option<Tracer>, resp: Response): (r: Response)
    ensures tracer.None? ==> r == resp
    ensures !SpanContextOf(resp.request.ctx).IsValid() ==> r == resp
    ensures r.contentLength == resp.contentLength
    ensures r.request.(ctx := resp.request.ctx) == resp.request
    ensures tracer.Some? && SpanContextOf(resp.request.ctx).IsValid() ==>
      var attrs := ExtractOtelAttributesFromRequest(resp.request);
      var s := resp.request.ctx.span.value;
      && r.request.ctx.span.Some?
      && var s' := r.request.ctx.span.value;
      && s'.attributes == s.attributes + attrs + [ContentLengthAttribute(resp.contentLength)]
      && s'.setCalls == s.setCalls + (if |attrs| > 0 then 2 else 1)
      && s'.(attributes := s.attributes, setCalls := s.setCalls) == s
  {
    if tracer.None? then resp
    else if !SpanContextOf(resp.request.ctx).IsValid() then resp
    else
      var span := resp.request.ctx.span.value;
      var attrs := ExtractOtelAttributesFromRequest(resp.request);
      var withRequest := if |attrs| > 0 then SetAttributes(span, attrs) else span;
      var done := SetAttributes(withRequest, [ContentLengthAttribute(resp.contentLength)]);
      resp.(request := resp.request.(ctx := Context(Some(done))))
  }

  /** The span gains one attribute per request value plus the content length,
      and nothing else is written. */
  lemma ResponseAttributeCount(tracer: Option<Tracer>, resp: Response)
    requires tracer.Some? && SpanContextOf(resp.request.ctx).IsValid()
    ensures var before := resp.request.ctx.span.value.attributes;
      var after := ExtractOtelAttributesFromResponse(tracer, resp).request.ctx.span.value.attributes;
      && |after| == |before| + ValueCount(resp.request.header) + ValueCount(resp.request.query)
           + ValueCount(resp.request.form) + ValueCount(resp.request.postForm) + 1
      && after[|after| - 1] == ContentLengthAttribute(resp.contentLength)
      && after[..|before|] == before
  {
  }
}
