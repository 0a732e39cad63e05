/**
 Span helpers over the application request context: running an action inside
 a new span, finding the span a context carries, and writing business fields
 or a string map to that span as attributes.
 */
module Spans {
  import opened Wrappers
  import opened Attributes
  import opened Otel

  /** The application request context (`DgContext`): the inner execution
      context, when one is attached, and the business identity fields. */
  datatype DgContext = DgContext(
    inner: Option<Context>,
    userId: Int64,
    opId: Int64,
    runAs: Int64,
    roles: string,
    bizTypes: Int64,
    groupId: Int64,
    platform: string,
    companyId: Int64,
    product: Int64,
    products: seq<Int64>,
    departmentIds: seq<Int64>)

  // ---------------------------------------------------------------------------
  // Running an action inside a new span
  // ---------------------------------------------------------------------------

  /** How the action left: by returning, or by panicking (the deferred end
      still runs, then the panic goes on to the caller). */
  datatype Exit = Returned | Panicked

  /** One call of the action, with the arguments it received. */
  datatype Invocation = Invocation(ctx: Context, span: Span)

  /** What one `DoActionWithinNewSpan` call did: the action calls it made, the
      spans it started (in their final state) and how it exited. */
  datatype Scope = Scope(invocations: seq<Invocation>, spans: seq<Span>, exit: Exit)

  /** The parent of the new span: the inner context, or the background
      context when none is attached. */
  function ParentContext(ctx: DgContext): (c: Context)
    ensures ctx.inner.Some? ==> c == ctx.inner.value
    ensures ctx.inner.None? ==> c == Background && c.span.None?
  {
    ctx.inner.GetOr(Background)
  }

  /** `DoActionWithinNewSpan`. With no tracer installed it returns at once and
      the action does not run. Otherwise it starts one span under the parent
      context, runs the action once with the new context and span, and ends
      that span once after the action, whether the action returns or panics.
      The start options are passed to the tracer untouched and do not appear
      here. */
  function DoActionWithinNewSpan(tracer: Option<Tracer>, ctx: DgContext, spanName: string,
                                 action: (Context, Span) -> Exit): (r: Scope)
    ensures tracer.None? ==> r.invocations == [] && r.spans == [] && r.exit == Returned
    ensures tracer.Some? ==>
      && |r.spans| == 1
      && |r.invocations| == 1
      && r.spans[0].started == 1
      && r.spans[0].ended == 1
      && r.spans[0].name == spanName
      && r.spans[0].parent == ParentContext(ctx)
      && r.invocations[0].span == r.spans[0].(ended := 0)
      && r.invocations[0].ctx.span == Some(r.invocations[0].span)
      && r.exit == action(r.invocations[0].ctx, r.invocations[0].span)
  {
    match tracer
    case None => Scope([], [], Returned)
    case Some(t) =>
      var (nc, span) := Start(t, ParentContext(ctx), spanName);
      var exit := action(nc, span);
      Scope([Invocation(nc, span)], [End(span)], exit)
  }

  /** Every span the helper starts is ended as often as it is started, on
      both exit paths, and the action sees it before it is ended. */
  lemma ScopeBalanced(tracer: Option<Tracer>, ctx: DgContext, spanName: string,
                      action: (Context, Span) -> Exit)
    ensures var r := DoActionWithinNewSpan(tracer, ctx, spanName, action);
      && (forall s :: s in r.spans ==> s.started == s.ended == 1)
      && (forall v :: v in r.invocations ==> v.span.started == 1 && v.span.ended == 0)
      && |r.invocations| == |r.spans|
  {
  }

  // ---------------------------------------------------------------------------
  // Finding the current span
  // ---------------------------------------------------------------------------

  /** `GetSpanByDgContext`: the span of the inner context, present only when
      an inner context is attached and its span context is valid and has a
      span ID. The span-ID test is implied by validity, so the span is found
      exactly when the inner context's span context is valid. */
  function GetSpanByDgContext(ctx: DgContext): (r: Option<Span>)
    ensures r.Some? <==>
      && ctx.inner.Some?
      && SpanContextOf(ctx.inner.value).IsValid()
      && SpanContextOf(ctx.inner.value).hasSpanId
    ensures r.Some? <==> ctx.inner.Some? && SpanContextOf(ctx.inner.value).IsValid()
    ensures r.Some? ==> ctx.inner.value.span == r && r.value.spanContext.IsValid() && r.value.spanContext.hasSpanId
  {
    match ctx.inner
    case None => None
    case Some(inner) =>
      var sc := SpanContextOf(inner);
      if !sc.IsValid() || !sc.hasSpanId then None
      else inner.span
  }

  /** The context handed to the action resolves to the span started for it. */
  lemma ActionContextCarriesSpan(tracer: Option<Tracer>, ctx: DgContext, spanName: string,
                                 action: (Context, Span) -> Exit)
    requires tracer.Some?
    ensures var v := DoActionWithinNewSpan(tracer, ctx, spanName, action).invocations[0];
      GetSpanByDgContext(ctx.(inner := Some(v.ctx))) == Some(v.span)
  {
  }

  /** The application context after a write to the span it carries. */
  function WithSpan(ctx: DgContext, s: Span): (r: DgContext)
    ensures r.inner == Some(Context(Some(s)))
    ensures r.(inner := ctx.inner) == ctx
  {
    ctx.(inner := Some(Context(Some(s))))
  }

  // ---------------------------------------------------------------------------
  // Business fields as attributes
  // ---------------------------------------------------------------------------

  /** The attribute keys, constants of the shared application library. */
  datatype ConstantKeys = ConstantKeys(
    profile: string,
    uid: string,
    opId: string,
    runAs: string,
    roles: string,
    bizTypes: string,
    groupId: string,
    platform: string,
    companyId: string,
    product: string,
    products: string,
    departmentIds: string)

  /** The business fields, in the order the source writes them. */
  datatype BizField =
    | ProfileField | UserIdField | OpIdField | RunAsField | RolesField | BizTypesField
    | GroupIdField | PlatformField | CompanyIdField | ProductField | ProductsField | DepartmentIdsField

  const FieldCount: nat := 12

  /** Position of a field in the source's order. */
  function FieldRank(f: BizField): (i: nat)
    ensures i < FieldCount
  {
    match f
    case ProfileField => 0
    case UserIdField => 1
    case OpIdField => 2
    case RunAsField => 3
    case RolesField => 4
    case BizTypesField => 5
    case GroupIdField => 6
    case PlatformField => 7
    case CompanyIdField => 8
    case ProductField => 9
    case ProductsField => 10
    case DepartmentIdsField => 11
  }

  /** The field in position `i`. */
  function FieldAt(i: nat): (f: BizField)
    requires i < FieldCount
    ensures FieldRank(f) == i
  {
    if i == 0 then ProfileField
    else if i == 1 then UserIdField
    else if i == 2 then OpIdField
    else if i == 3 then RunAsField
    else if i == 4 then RolesField
    else if i == 5 then BizTypesField
    else if i == 6 then GroupIdField
    else if i == 7 then PlatformField
    else if i == 8 then CompanyIdField
    else if i == 9 then ProductField
    else if i == 10 then ProductsField
    else DepartmentIdsField
  }

  lemma FieldAtRank(f: BizField)
    ensures FieldAt(FieldRank(f)) == f
  {
  }

  /** A field is set when a string is non-empty, an integer strictly positive
      or a list non-empty. The profile is the deployment profile name. */
  predicate IsSet(f: BizField, ctx: DgContext, profile: string) {
    match f
    case ProfileField => profile != ""
    case UserIdField => ctx.userId > 0
    case OpIdField => ctx.opId > 0
    case RunAsField => ctx.runAs > 0
    case RolesField => ctx.roles != ""
    case BizTypesField => ctx.bizTypes > 0
    case GroupIdField => ctx.groupId > 0
    case PlatformField => ctx.platform != ""
    case CompanyIdField => ctx.companyId > 0
    case ProductField => ctx.product > 0
    case ProductsField => |ctx.products| > 0
    case DepartmentIdsField => |ctx.departmentIds| > 0
  }

  /** The typed value a field is written with. */
  function FieldValue(f: BizField, ctx: DgContext, profile: string): Value {
    match f
    case ProfileField => StringValue(profile)
    case UserIdField => Int64Value(ctx.userId)
    case OpIdField => Int64Value(ctx.opId)
    case RunAsField => Int64Value(ctx.runAs)
    case RolesField => StringValue(ctx.roles)
    case BizTypesField => Int64Value(ctx.bizTypes)
    case GroupIdField => Int64Value(ctx.groupId)
    case PlatformField => StringValue(ctx.platform)
    case CompanyIdField => Int64Value(ctx.companyId)
    case ProductField => Int64Value(ctx.product)
    case ProductsField => Int64SliceValue(ctx.products)
    case DepartmentIdsField => Int64SliceValue(ctx.departmentIds)
  }

  /** Which key each field is written under: as the source does it, where
      the department IDs reuse the products key, or as the field names
      intend. */
  datatype KeyScheme = AsWritten | Intended

  function FieldKey(f: BizField, keys: ConstantKeys, scheme: KeyScheme): string {
    match f
    case ProfileField => keys.profile
    case UserIdField => keys.uid
    case OpIdField => keys.opId
    case RunAsField => keys.runAs
    case RolesField => keys.roles
    case BizTypesField => keys.bizTypes
    case GroupIdField => keys.groupId
    case PlatformField => keys.platform
    case CompanyIdField => keys.companyId
    case ProductField => keys.product
    case ProductsField => keys.products
    case DepartmentIdsField => if scheme == AsWritten then keys.products else keys.departmentIds
  }

  /** The set fields among the first `n` positions, in order. */
  function SetFieldsUpTo(n: nat, ctx: DgContext, profile: string): seq<BizField>
    requires n <= FieldCount
  {
    if n == 0 then []
    else SetFieldsUpTo(n - 1, ctx, profile) + (if IsSet(FieldAt(n - 1), ctx, profile) then [FieldAt(n - 1)] else [])
  }

  /** The set business fields, in the source's order. */
  function SetFields(ctx: DgContext, profile: string): seq<BizField> {
    SetFieldsUpTo(FieldCount, ctx, profile)
  }

  /** The attribute of one field, or nothing when the field is not set. */
  function Pick(f: BizField, ctx: DgContext, profile: string, keys: ConstantKeys, scheme: KeyScheme): seq<KeyValue> {
    When(IsSet(f, ctx, profile), KeyValue(FieldKey(f, keys, scheme), FieldValue(f, ctx, profile)))
  }

  /** Reference definition: one attribute per set field among the first `n`
      positions, in order. */
  function SelectedUpTo(n: nat, ctx: DgContext, profile: string, keys: ConstantKeys, scheme: KeyScheme): seq<KeyValue>
    requires n <= FieldCount
  {
    if n == 0 then []
    else SelectedUpTo(n - 1, ctx, profile, keys, scheme) + Pick(FieldAt(n - 1), ctx, profile, keys, scheme)
  }

  function When(cond: bool, kv: KeyValue): seq<KeyValue> {
    if cond then [kv] else []
  }

  /** The twelve `if` statements of `SetSpanAttributesByDgContext`, as
      written: each appends its field's attribute when the field is set;
      `scheme` picks the department IDs' key. */
  function IfChain(ctx: DgContext, profile: string, keys: ConstantKeys, scheme: KeyScheme): seq<KeyValue> {
    When(profile != "", String(keys.profile, profile))
    + When(ctx.userId > 0, KeyValue(keys.uid, Int64Value(ctx.userId)))
    + When(ctx.opId > 0, KeyValue(keys.opId, Int64Value(ctx.opId)))
    + When(ctx.runAs > 0, KeyValue(keys.runAs, Int64Value(ctx.runAs)))
    + When(ctx.roles != "", String(keys.roles, ctx.roles))
    + When(ctx.bizTypes > 0, KeyValue(keys.bizTypes, Int64Value(ctx.bizTypes)))
    + When(ctx.groupId > 0, KeyValue(keys.groupId, Int64Value(ctx.groupId)))
    + When(ctx.platform != "", String(keys.platform, ctx.platform))
    + When(ctx.companyId > 0, KeyValue(keys.companyId, Int64Value(ctx.companyId)))
    + When(ctx.product > 0, KeyValue(keys.product, Int64Value(ctx.product)))
    + When(|ctx.products| > 0, KeyValue(keys.products, Int64SliceValue(ctx.products)))
    + When(|ctx.departmentIds| > 0, KeyValue(if scheme == AsWritten then keys.products else keys.departmentIds, Int64SliceValue(ctx.departmentIds)))
  }

  /** The `if` chain agrees with the reference list, field by field. */
  lemma IfChainSelects(ctx: DgContext, profile: string, keys: ConstantKeys, scheme: KeyScheme)
    ensures IfChain(ctx, profile, keys, scheme) == SelectedUpTo(FieldCount, ctx, profile, keys, scheme)
  {
    assert SelectedUpTo(1, ctx, profile, keys, scheme) == Pick(ProfileField, ctx, profile, keys, scheme);
    assert SelectedUpTo(2, ctx, profile, keys, scheme) == SelectedUpTo(1, ctx, profile, keys, scheme) + Pick(UserIdField, ctx, profile, keys, scheme);
    assert SelectedUpTo(3, ctx, profile, keys, scheme) == SelectedUpTo(2, ctx, profile, keys, scheme) + Pick(OpIdField, ctx, profile, keys, scheme);
    assert SelectedUpTo(4, ctx, profile, keys, scheme) == SelectedUpTo(3, ctx, profile, keys, scheme) + Pick(RunAsField, ctx, profile, keys, scheme);
    assert SelectedUpTo(5, ctx, profile, keys, scheme) == SelectedUpTo(4, ctx, profile, keys, scheme) + Pick(RolesField, ctx, profile, keys, scheme);
    assert SelectedUpTo(6, ctx, profile, keys, scheme) == SelectedUpTo(5, ctx, profile, keys, scheme) + Pick(BizTypesField, ctx, profile, keys, scheme);
    assert SelectedUpTo(7, ctx, profile, keys, scheme) == SelectedUpTo(6, ctx, profile, keys, scheme) + Pick(GroupIdField, ctx, profile, keys, scheme);
    assert SelectedUpTo(8, ctx, profile, keys, scheme) == SelectedUpTo(7, ctx, profile, keys, scheme) + Pick(PlatformField, ctx, profile, keys, scheme);
    assert SelectedUpTo(9, ctx, profile, keys, scheme) == SelectedUpTo(8, ctx, profile, keys, scheme) + Pick(CompanyIdField, ctx, profile, keys, scheme);
    assert SelectedUpTo(10, ctx, profile, keys, scheme) == SelectedUpTo(9, ctx, profile, keys, scheme) + Pick(ProductField, ctx, profile, keys, scheme);
    assert SelectedUpTo(11, ctx, profile, keys, scheme) == SelectedUpTo(10, ctx, profile, keys, scheme) + Pick(ProductsField, ctx, profile, keys, scheme);
    assert SelectedUpTo(12, ctx, profile, keys, scheme) == SelectedUpTo(11, ctx, profile, keys, scheme) + Pick(DepartmentIdsField, ctx, profile, keys, scheme);
  }

  /** The attribute list `SetSpanAttributesByDgContext` builds: the `if`
      chain, which is the reference list. It holds one attribute per set
      field, in field order, under its field's key with its field's value. */
  function ContextAttributes(ctx: DgContext, profile: string, keys: ConstantKeys, scheme: KeyScheme): (r: seq<KeyValue>)
    ensures r == SelectedUpTo(FieldCount, ctx, profile, keys, scheme)
    ensures var fs := SetFields(ctx, profile);
      && |r| == |fs|
      && forall i :: 0 <= i < |r| ==> r[i] == KeyValue(FieldKey(fs[i], keys, scheme), FieldValue(fs[i], ctx, profile))
  {
    IfChainSelects(ctx, profile, keys, scheme);
    SelectedUpToSpec(FieldCount, ctx, profile, keys, scheme);
    IfChain(ctx, profile, keys, scheme)
  }

  lemma {:induction false} SetFieldsUpToSpec(n: nat, ctx: DgContext, profile: string)
    requires n <= FieldCount
    ensures var fs := SetFieldsUpTo(n, ctx, profile);
      && (forall f :: f in fs <==> FieldRank(f) < n && IsSet(f, ctx, profile))
      && (fs == [] <==> forall f :: FieldRank(f) < n ==> !IsSet(f, ctx, profile))
      && (forall i :: 0 <= i < |fs| ==> FieldRank(fs[i]) < n)
      && (forall i, j :: 0 <= i < j < |fs| ==> FieldRank(fs[i]) < FieldRank(fs[j]))
  {
    if n > 0 {
      SetFieldsUpToSpec(n - 1, ctx, profile);
      var fs := SetFieldsUpTo(n, ctx, profile);
      var prev := SetFieldsUpTo(n - 1, ctx, profile);
      forall f
        ensures f in fs <==> FieldRank(f) < n && IsSet(f, ctx, profile)
      {
        FieldAtRank(f);
      }
      forall i | 0 <= i < |fs|
        ensures FieldRank(fs[i]) < n
        ensures i < |prev| ==> fs[i] == prev[i] && FieldRank(fs[i]) < n - 1
      {
      }
    }
  }

  lemma {:induction false} SelectedUpToSpec(n: nat, ctx: DgContext, profile: string, keys: ConstantKeys, scheme: KeyScheme)
    requires n <= FieldCount
    ensures var fs := SetFieldsUpTo(n, ctx, profile);
      var r := SelectedUpTo(n, ctx, profile, keys, scheme);
      && |r| == |fs|
      && forall i :: 0 <= i < |r| ==> r[i] == KeyValue(FieldKey(fs[i], keys, scheme), FieldValue(fs[i], ctx, profile))
  {
    if n > 0 {
      SelectedUpToSpec(n - 1, ctx, profile, keys, scheme);
    }
  }

  predicate NothingSet(ctx: DgContext, profile: string) {
    forall f :: !IsSet(f, ctx, profile)
  }

  /** What the `if` chain writes: one attribute per set field, nothing for
      an unset one, in the source's field order, each under its field's key
      with its field's value. */
  lemma ContextAttributesSpec(ctx: DgContext, profile: string, keys: ConstantKeys, scheme: KeyScheme)
    ensures var r := ContextAttributes(ctx, profile, keys, scheme);
      var fs := SetFields(ctx, profile);
      && |r| == |fs|
      && (forall i :: 0 <= i < |r| ==> r[i] == KeyValue(FieldKey(fs[i], keys, scheme), FieldValue(fs[i], ctx, profile)))
      && (forall f :: f in fs <==> IsSet(f, ctx, profile))
      && (fs == [] <==> NothingSet(ctx, profile))
      && (forall i, j :: 0 <= i < j < |fs| ==> FieldRank(fs[i]) < FieldRank(fs[j]))
  {
    SetFieldsUpToSpec(FieldCount, ctx, profile);
  }

  /** `SetSpanAttributesByDgContext`: with a span found, writes the set
      business fields to it in one call, and makes no call when none is set;
      with no span found, does nothing. The business fields never change. */
  function SetSpanAttributesByDgContext(ctx: DgContext, profile: string, keys: ConstantKeys): (r: DgContext)
    ensures GetSpanByDgContext(ctx).None? ==> r == ctx
    ensures r.(inner := ctx.inner) == ctx
    ensures GetSpanByDgContext(ctx).Some? ==>
      var s := GetSpanByDgContext(ctx).value;
      var attrs := ContextAttributes(ctx, profile, keys, AsWritten);
      && GetSpanByDgContext(r).Some?
      && var s' := GetSpanByDgContext(r).value;
      && s'.attributes == s.attributes + attrs
      && s'.setCalls == s.setCalls + (if |attrs| > 0 then 1 else 0)
      && s'.(attributes := s.attributes, setCalls := s.setCalls) == s
  {
    match GetSpanByDgContext(ctx)
    case None => ctx
    case Some(span) =>
      var attrs := ContextAttributes(ctx, profile, keys, AsWritten);
      if |attrs| > 0 then WithSpan(ctx, SetAttributes(span, attrs)) else ctx
  }

  /** With every business field zero or empty, the span is left untouched:
      no attribute is written and no write is made. */
  lemma NothingSetNoWrite(ctx: DgContext, profile: string, keys: ConstantKeys)
    requires NothingSet(ctx, profile)
    ensures ContextAttributes(ctx, profile, keys, AsWritten) == []
    ensures SetSpanAttributesByDgContext(ctx, profile, keys) == ctx
  {
    ContextAttributesSpec(ctx, profile, keys, AsWritten);
  }

  /** A user ID of 42 and the role "admin", with no profile and nothing else
      set, give exactly those two attributes. */
  lemma UserAndRolesOnly(ctx: DgContext, keys: ConstantKeys)
    requires ctx.userId == 42 && ctx.roles == "admin"
    requires ctx.opId <= 0 && ctx.runAs <= 0 && ctx.bizTypes <= 0 && ctx.groupId <= 0
    requires ctx.platform == "" && ctx.companyId <= 0 && ctx.product <= 0
    requires ctx.products == [] && ctx.departmentIds == []
    ensures ContextAttributes(ctx, "", keys, AsWritten) == [KeyValue(keys.uid, Int64Value(42)), String(keys.roles, "admin")]
  {
  }

  /** As written, a non-empty department ID list is written under the
      products key, so with both lists present that key occurs twice, however
      distinct the constants are. */
  lemma DepartmentIdsShareProductsKey(ctx: DgContext, profile: string, keys: ConstantKeys)
    requires |ctx.products| > 0 && |ctx.departmentIds| > 0
    ensures var r := ContextAttributes(ctx, profile, keys, AsWritten);
      && |r| >= 2
      && r[|r| - 2] == KeyValue(keys.products, Int64SliceValue(ctx.products))
      && r[|r| - 1] == KeyValue(keys.products, Int64SliceValue(ctx.departmentIds))
  {
  }

  /** The constants name twelve different keys. */
  predicate DistinctConstants(keys: ConstantKeys) {
    forall f, g :: f != g ==> FieldKey(f, keys, Intended) != FieldKey(g, keys, Intended)
  }

  /** With the department IDs under their own key, distinct constants give an
      attribute list without repeated keys. */
  lemma IntendedKeysDistinct(ctx: DgContext, profile: string, keys: ConstantKeys)
    requires DistinctConstants(keys)
    ensures var r := ContextAttributes(ctx, profile, keys, Intended);
      forall i, j :: 0 <= i < j < |r| ==> r[i].key != r[j].key
  {
    ContextAttributesSpec(ctx, profile, keys, Intended);
    var fs := SetFields(ctx, profile);
    forall i, j | 0 <= i < j < |fs|
      ensures FieldKey(fs[i], keys, Intended) != FieldKey(fs[j], keys, Intended)
    {
      assert fs[i] != fs[j];
    }
  }

  // ---------------------------------------------------------------------------
  // A string map as attributes
  // ---------------------------------------------------------------------------

  predicate DistinctKeys(entries: seq<(string, string)>) {
    forall i, j :: 0 <= i < j < |entries| ==> entries[i].0 != entries[j].0
  }

  /** A Go `map[string]string`, as its entries in one iteration order. */
  type StringMap = entries: seq<(string, string)> | DistinctKeys(entries) witness []

  /** The entries read back as a Dafny map. */
  function MapOf(entries: seq<(string, string)>): map<string, string> {
    if |entries| == 0 then map[] else MapOf(entries[1..])[entries[0].0 := entries[0].1]
  }

  lemma {:induction false} MapOfSpec(entries: seq<(string, string)>)
    requires DistinctKeys(entries)
    ensures |MapOf(entries)| == |entries|
    ensures forall i :: 0 <= i < |entries| ==> entries[i].0 in MapOf(entries) && MapOf(entries)[entries[i].0] == entries[i].1
    ensures forall k :: k in MapOf(entries) ==> exists i :: 0 <= i < |entries| && entries[i].0 == k
  {
    if |entries| > 0 {
      var rest := entries[1..];
      MapOfSpec(rest);
      forall i | 0 <= i < |entries|
        ensures entries[i].0 in MapOf(entries) && MapOf(entries)[entries[i].0] == entries[i].1
      {
        if i > 0 {
          assert entries[i] == rest[i - 1];
        }
      }
      forall k | k in MapOf(entries)
        ensures exists i :: 0 <= i < |entries| && entries[i].0 == k
      {
        if k != entries[0].0 {
          var i :| 0 <= i < |rest| && rest[i].0 == k;
          assert entries[i + 1] == rest[i];
        }
      }
    }
  }

  /** The range loop over the map: one string attribute per entry. */
  function MapAttributes(entries: seq<(string, string)>): (r: seq<KeyValue>)
    ensures |r| == |entries|
    ensures forall i :: 0 <= i < |r| ==> r[i] == String(entries[i].0, entries[i].1)
  {
    if |entries| == 0 then [] else [String(entries[0].0, entries[0].1)] + MapAttributes(entries[1..])
  }

  /** One attribute per map entry: as many attributes as the map has keys,
      every entry present, and nothing else. */
  lemma {:induction false} MapAttributesRoundTrip(mp: StringMap)
    ensures |MapAttributes(mp)| == |MapOf(mp)|
    ensures forall k :: k in MapOf(mp) ==> String(k, MapOf(mp)[k]) in MapAttributes(mp)
    ensures forall kv :: kv in MapAttributes(mp) ==> kv.key in MapOf(mp) && kv.value == StringValue(MapOf(mp)[kv.key])
  {
    MapOfSpec(mp);
    var r := MapAttributes(mp);
    forall k | k in MapOf(mp)
      ensures String(k, MapOf(mp)[k]) in r
    {
      var i :| 0 <= i < |mp| && mp[i].0 == k;
      assert r[i] == String(k, MapOf(mp)[k]);
    }
  }

  /** `SetSpanAttributesByMap`: with a non-empty map and a span found, writes
      the map's entries to the span in one call; otherwise does nothing. */
  function SetSpanAttributesByMap(ctx: DgContext, mp: StringMap): (r: DgContext)
    ensures |mp| == 0 || GetSpanByDgContext(ctx).None? ==> r == ctx
    ensures r.(inner := ctx.inner) == ctx
    ensures |mp| > 0 && GetSpanByDgContext(ctx).Some? ==>
      var s := GetSpanByDgContext(ctx).value;
      && GetSpanByDgContext(r).Some?
      && var s' := GetSpanByDgContext(r).value;
      && s'.attributes == s.attributes + MapAttributes(mp)
      && s'.setCalls == s.setCalls + 1
      && s'.(attributes := s.attributes, setCalls := s.setCalls) == s
  {
    if |mp| == 0 then ctx
    else
      match GetSpanByDgContext(ctx)
      case None => ctx
      case Some(span) => WithSpan(ctx, SetAttributes(span, MapAttributes(mp)))
  }
}
