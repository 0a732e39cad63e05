# go-otel instrumentation helpers, modelled in Dafny

This project models the two pieces of logic that the `dgotel` package adds on
top of the OpenTelemetry Go SDK. It proves what those pieces promise.

- **HTTP attributes and span names (`http.go`).** The two span-name formatters
  given to the instrumented transport. `ExtractOtelAttributesFromRequest`,
  which turns request headers, query parameters, form fields and post-form
  fields into namespaced string attributes. `ExtractOtelAttributesFromResponse`,
  which writes those attributes and the response content length to the span
  the request's context carries.
- **Span helpers over the application context (`span.go`).**
  `DoActionWithinNewSpan` runs an action inside a new span.
  `GetSpanByDgContext` finds the span of the application context
  (`DgContext`). `SetSpanAttributesByDgContext` writes the business fields
  that are set. `SetSpanAttributesByMap` writes a string map.

The SDK objects are abstract (module `Otel`):
- A span is a record: its span context, name, parent context, attribute log,
  the number of `SetAttributes` calls made on it, and start and end counts.
- A context is the span it carries, if any. The background context carries none.
- The process-wide tracer is an `Option<Tracer>`. `None` stands for the nil
  package variable.

The SDK's spans are shared references. Each operation here instead returns
the value that changed: the response, the application context, or a `Scope`
record. A `Scope` records the spans the helper started, the action calls it
made and how it exited.

Files:
- `wrappers.dfy`: the `Option` type.
- `attributes.dfy`: typed attribute values and 64-bit integers.
- `otel.dfy`: the abstract SDK.
- `http.dfy`: `http.go`.
- `spans.dfy`: `span.go`.

Two points of the code that the model keeps as written:
- With no tracer installed, `DoActionWithinNewSpan` returns before the
  action runs (span.go:14-16). The action is never called, and no span is
  started.
- A span context is valid when it has both a trace ID and a span ID
  (`SpanContext.IsValid`). So the `HasSpanID` test that `GetSpanByDgContext`
  makes after `IsValid` (span.go:40) never decides anything. The single
  `IsValid` test of `ExtractOtelAttributesFromResponse` (http.go:50) is the
  same condition.

## Model

| member | source | states |
|---|---|---|
| `Http.DefaultSpanName` | http.go:18-20 | Total on every input, empty parts included. The name has the length of its parts plus 10. It starts with `Call: ` and then the scheme. Then come `://`, the host and the path. It ends with a space and the method. |
| `Http.DefaultSpanNameMethod` | http.go:18-20 | For any method without a space, the text after the last space of the default name is exactly the method, whatever the scheme, host and path. |
| `Http.ServiceSpanName` | http.go:39-43 | Total on every input. The name starts with the service name and `: `. Then comes the URL path. It ends with a space and the method. Its length is the sum of its parts plus 3. |
| `Http.ServiceSpanNameMethod` | http.go:40-42 | For any method without a space, the method can be read back from the service-name formatter's output. |
| `Http.ToLower` | http.go:65 | The result has the same length as the input. Each character is the ASCII lower-case of the input character. No upper-case letter remains. |
| `Http.AttributeKey` | http.go:62-94 | A key is the category namespace followed by the field name. A header name is lower-cased character by character. Query, form and post-form names follow their namespace unchanged. |
| `Http.CategoryOfAttributeKey` | http.go:62-94 | The four namespaces cannot be confused. Every key built for a category reads back as that category from its namespace prefix. |
| `Http.ValueAttributes` | http.go:64-66 | The inner loop gives one string attribute per value, in order. Each has the field's key and the value copied verbatim. |
| `Http.CategoryAttributes` | http.go:62-94 | One category gives exactly as many attributes as its map has values. A field with several values counts once per value. |
| `Http.CategoryAttributesMembers` | http.go:63-67 | An attribute is in one category's list if and only if it is the keyed attribute of some value of some field of that map. |
| `Http.Guarded` | http.go:62-94 | The `len(...) > 0` guard around each category changes nothing. The guarded list is the category's list, with one attribute per value. |
| `Http.ExtractOtelAttributesFromRequest` | http.go:59-97 | The list has as many attributes as the header, query, form and post-form maps have values in total. Every value is a string. |
| `Http.ExtractEmpty` | http.go:60-96 | The list is empty if and only if the four maps hold no value at all. So four empty maps give the empty list. |
| `Http.ExtractMembers` | http.go:62-94 | An attribute is in the list if and only if it comes from a value of a header, query, form or post-form field. |
| `Http.ValueAttributesMultiplicity` | http.go:64-66 | The inner loop writes an attribute exactly as many times as its string occurs among the field's values, when it has the field's key. Otherwise it writes it not at all. |
| `Http.CategoryAttributesMultiplicity` | http.go:62-68 | One category's list holds each attribute exactly as often as the values of its multi-map give it. A repeated value is written once per occurrence: nothing is dropped, added or deduplicated. |
| `Http.ExtractMultiplicity` | http.go:59-97 | The request's list holds each attribute exactly as often as the header, query, form and post-form values give it, summed over the four maps. |
| `Http.ExtractOrdered` | http.go:62-94 | Every key lies in one of the four namespaces. All header attributes come before all query attributes, query before form, and form before post-form. |
| `Http.ExtractOtelAttributesFromResponse` | http.go:45-57 | The response is unchanged when there is no tracer or when the request's span context is invalid. Otherwise the span gains the request attributes, then the content-length attribute. There are two writes when the request list is non-empty and one otherwise. Nothing else about the span or the response changes. |
| `Http.ResponseAttributeCount` | http.go:51-55 | When the hook applies, the span's log grows by the total number of request values plus one. The old log is kept as a prefix. The last entry is the content length. |
| `Otel.SpanContextOf` | span.go:39 | A context that carries no span has a span context with neither a trace ID nor a span ID, so it is invalid. Otherwise the span context is that of the carried span. |
| `Otel.SetAttributes` | span.go:94 | The span's log is extended by exactly the given attributes. The write count goes up by one. Nothing else changes. |
| `Otel.Start` | span.go:28 | Starting gives a span with the given name and parent. It has been started once and not ended. Its span context is valid: it has a trace ID and a span ID. The new context carries it. |
| `Otel.End` | span.go:29 | Ending raises the end count by one and changes nothing else. |
| `Spans.ParentContext` | span.go:18-23 | The parent is the inner context when one is attached. Otherwise it is the background context, which carries no span. |
| `Spans.DoActionWithinNewSpan` | span.go:13-32 | With no tracer: no span, no action call, a normal return. With a tracer: exactly one span, named as given, under the parent context. It is started once and ended once. The action runs once, with a context that carries the span, and sees the span before it ends. The helper exits as the action did. |
| `Spans.ScopeBalanced` | span.go:28-31 | On both exit paths, every span the helper starts is ended exactly as often as it is started. Every action call sees a started span that has not yet ended. |
| `Spans.GetSpanByDgContext` | span.go:34-45 | A span is returned if and only if an inner context is attached and its span context is valid and has a span ID. Equally, if and only if that span context is valid, since validity implies a span ID. The span returned is the one that context carries. |
| `Spans.ActionContextCarriesSpan` | span.go:28-44 | An application context built on the context handed to the action resolves to the span started for that action. |
| `Spans.IfChainSelects` | span.go:55-91 | The twelve `if` statements, as written, build exactly the reference list over the twelve fields. |
| `Spans.ContextAttributes` | span.go:53-91 | The list the `if` chain builds is the reference list over the twelve fields. It has one attribute per set field, in field order. Each attribute has its field's key and typed value. |
| `Spans.ContextAttributesSpec` | span.go:55-91 | One attribute per set field and none for an unset one. A field is set when a string is non-empty, an integer is positive or a list is non-empty. The order is Profile, UID, OpId, RunAs, Roles, BizTypes, GroupId, Platform, CompanyId, Product, Products, DepartmentIds. Each attribute has its field's key and typed value. The list is empty exactly when no field is set. |
| `Spans.SetSpanAttributesByDgContext` | span.go:47-96 | No change when no span is found. Otherwise the span gains the business-field list in one write, or no write when the list is empty. The business fields never change. |
| `Spans.NothingSetNoWrite` | span.go:93-95 | With every field zero or empty, the list is empty and the application context is returned unchanged, so there is no `SetAttributes` call. |
| `Spans.UserAndRolesOnly` | span.go:59-70 | With user ID 42, role `admin` and nothing else set, the list is exactly the UID and roles attributes with those values. |
| `Spans.DepartmentIdsShareProductsKey` | span.go:86-91 | As written: when both the products and department lists are non-empty, the last two attributes are both keyed with the products constant. |
| `Spans.IntendedKeysDistinct` | span.go:86-91 | With the department IDs under a key of their own and twelve distinct constants, no key repeats in the list. |
| `Spans.MapAttributes` | span.go:108-111 | The loop gives one string attribute per map entry, keyed and valued as the entry. |
| `Spans.MapAttributesRoundTrip` | span.go:108-111 | There are as many attributes as the map has keys. Every entry appears as an attribute. Every attribute is an entry of the map. |
| `Spans.SetSpanAttributesByMap` | span.go:98-114 | No change for an empty map or when no span is found. Otherwise the span gains the map's attributes in one write. The business fields never change. |

## Findings

| source | as written | input that shows it | evidently intended | confidence | as-written member | corrected member |
|---|---|---|---|---|---|---|
| span.go:89-91 | The department IDs are written under the products constant. | `Products = [1]`, `DepartmentIds = [2]`: the products key occurs twice, and the department list cannot be told apart from a product list. | A department-IDs key of its own, like every other field. | medium (the constants package is not part of this model); not executed | `Spans.DepartmentIdsShareProductsKey` | `Spans.IntendedKeysDistinct` |

`SetSpanAttributesByDgContext` keeps the key as written, so it matches the
code. The corrected list is `ContextAttributes` with the `Intended` key
scheme.

## Left out

- `init.go`: `InitTracer`, `NewResource`, `NewHTTPExporter` and `GetTracerServiceName` only build SDK objects and set process-wide SDK state. They read the host and environment, and they end the process on error. There is no logic of their own to state.
- `NewHTTPExporter` (http.go:22-33), `NewOtelHttpTransport` and the transport wrapping in `NewOtelHttpTransportWithServiceName` are calls into the instrumentation library. Only the name formatters are modelled.
- Parsing inside `req.URL.Query()`, `ParseForm` and `ParseMultipartForm`. The query, form and post-form maps are inputs, already parsed.
- Go map iteration order is unspecified. Each map is the sequence of its entries in one visiting order. No property promises an order within a category.
- `Http.ToLower`: only ASCII letters are lower-cased, whereas Go's `strings.ToLower` also maps other Unicode letters. Header names are HTTP tokens, which are ASCII, so only the header-key case is affected.
- `Http.ExtractOtelAttributesFromResponse`: the content-length key `http.response_content_length` is the key of the semantic-conventions helper `HTTPResponseContentLength`. That package is not part of this model.
- `Spans.SetSpanAttributesByDgContext`: the attribute keys are constants of the shared application library, which is not part of this model. They are an input record (`ConstantKeys`). The deployment profile, which the source reads from the environment, is an input string.
- SDK span semantics: sampling, attribute limits, key deduplication inside the SDK's span, writes ignored after `End`, batching, export and propagation. A span is an append-only attribute log with counters. A started span always has a valid span context with a span ID, as with the always-sampling provider the package installs.
- Span start options (`opts`) in `DoActionWithinNewSpan`. The nil-to-empty replacement has no observable effect, and the options go to the SDK unchanged.
- `Spans.DoActionWithinNewSpan`: the action's own effects on the world are not modelled. It is a function from the new context and span to how it exits (return or panic). Only its calls and arguments are observable.
- A nil `*DgContext` reference is not modelled. The application context is always present, and its inner context is optional.
- Nil `*http.Request`, `*http.Response` and `*url.URL` pointers are not modelled. A request always has a URL, and a response always has a request. The source dereferences them unguarded. `ExtractOtelAttributesFromResponse` reads `response.Request` (http.go:50) once a tracer is installed. `ExtractOtelAttributesFromRequest` and both name formatters read `req.URL` (http.go:19, 41, 71). So a nil pointer there makes the source panic, which the model does not represent. With no tracer, `ExtractOtelAttributesFromResponse` returns before any dereference (http.go:46-47), as modelled.
- Go's `int` and `int64` are both 64-bit integers (`Attributes.Int64`), as on the 64-bit platforms the package targets. No arithmetic is done on them.
