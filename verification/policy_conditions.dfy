/** How the route of a source is stored in a decision and read back, and what storing does to it. */
module PolicyConditions {
  import opened Options
  import opened AuthModel
  import ProvenanceModel

  /** What JSON.parse returns. */
  datatype Json =
    | Null
    | Bool(b: bool)
    | Number(n: real)
    | String(s: string)
    | Array(items: seq<Json>)
    | Object(fields: map<string, Json>)

  /** The column of a decision: SQL NULL, a value that is not a text, a text that does not parse, or
      one that does. Texts that parse alike are not told apart. */
  datatype Column = SqlNull | NotText | Unreadable | Holds(value: Json)

  datatype Reading = Invalid | Reading(condition: Option<Condition>)

  const VERSION: Json := Number(1.0)

  predicate HasString(c: map<string, Json>, key: string) {
    key in c && c[key].String?
  }

  predicate HasIdentifier(c: map<string, Json>, key: string) {
    HasString(c, key) && IsIdentifier(c[key].s)
  }

  /** What the last field has to hold, by the kind. */
  predicate LastField(c: map<string, Json>, kind: Json) {
    if kind == String("qq_category") then HasString(c, "category") && IsGroupCategory(c["category"].s)
    else
      && kind == String("qq_memory_source")
      && HasString(c, "sourceClass") && c["sourceClass"].s in SOURCE_CLASS_ACTIONS
  }

  /** The shape check, branch by branch: the exact number of fields stands for their names. */
  predicate IsCondition(v: Json) {
    && v.Object?
    && var c := v.fields;
       && "version" in c && c["version"] == VERSION && "kind" in c
       && if c["kind"] == String("none") then |c| == 2
          else HasIdentifier(c, "connectionId") && HasIdentifier(c, "groupId") && |c| == 5 && LastField(c, c["kind"])
  }

  function RouteFields(kind: string, connectionId: string, groupId: string, key: string, value: string): map<string, Json> {
    map["version" := VERSION, "kind" := String(kind), "connectionId" := String(connectionId),
        "groupId" := String(groupId), key := String(value)]
  }

  function Written(c: Claim): Json {
    match c
    case NoCondition => Object(map["version" := VERSION, "kind" := String("none")])
    case QqCategory(k, g, category) => Object(RouteFields("qq_category", k, g, "category", category))
    case QqMemorySource(k, g, sourceClass) => Object(RouteFields("qq_memory_source", k, g, "sourceClass", sourceClass))
  }

  /** The condition an accepted value is, field by field. */
  function ClaimIn(v: Json): Claim
    requires IsCondition(v)
  {
    var c := v.fields;
    if c["kind"] == String("none") then NoCondition
    else if c["kind"] == String("qq_category") then QqCategory(c["connectionId"].s, c["groupId"].s, c["category"].s)
    else QqMemorySource(c["connectionId"].s, c["groupId"].s, c["sourceClass"].s)
  }

  function PolicyConditionJson(route: Route): Column {
    match route
    case LegacyRoute => SqlNull
    case Unstated => Holds(Written(NoCondition))
    case Named(c) => if IsCondition(Written(c)) then Holds(Written(c)) else SqlNull
  }

  /** Anything but NULL and an accepted value is an error, which the reader's transaction turns into a refusal. */
  function ReadPolicyCondition(column: Column): Reading {
    match column
    case SqlNull => Reading(None)
    case NotText => Invalid
    case Unreadable => Invalid
    case Holds(v) =>
      if IsCondition(v) then
        AcceptedIsWritten(v);
        Reading(Some(ClaimIn(v)))
      else Invalid
  }

  // ---------------------------------------------------------------------------------------
  // The shape check accepts exactly the conditions

  lemma NoOtherKeys(c: map<string, Json>, keys: set<string>)
    requires keys <= c.Keys && |c| <= |keys|
    ensures c.Keys == keys
  {
    var rest := c.Keys - keys;
    assert c.Keys == keys + rest && |c.Keys| == |c|;
    assert |rest| == 0;
  }

  lemma NamesDiffer()
    ensures "version" != "kind" && "version" != "connectionId" && "version" != "groupId" && "kind" != "connectionId"
            && "kind" != "groupId" && "connectionId" != "groupId"
    ensures |{"version", "kind", "connectionId", "groupId"}| == 4
    ensures "category" !in {"version", "kind", "connectionId", "groupId"}
    ensures "sourceClass" !in {"version", "kind", "connectionId", "groupId"}
    ensures "none" != "qq_category" && "none" != "qq_memory_source" && "qq_category" != "qq_memory_source"
  {
    assert "version"[0] == 'v' && "groupId"[0] == 'g';
    assert |"version"| == 7 && |"kind"| == 4 && |"connectionId"| == 12 && |"groupId"| == 7;
    assert |"category"| == 8 && |"sourceClass"| == 11;
    assert |"none"| == 4 && |"qq_category"| == 11 && |"qq_memory_source"| == 16;
  }

  lemma AcceptedIsWritten(v: Json)
    requires IsCondition(v)
    ensures WellFormed(ClaimIn(v)) && v == Written(ClaimIn(v))
  {
    var c := v.fields;
    if c["kind"] == String("none") {
      NoOtherKeys(c, {"version", "kind"});
    } else if c["kind"] == String("qq_category") {
      NoOtherKeys(c, {"version", "kind", "connectionId", "groupId", "category"});
    } else {
      NoOtherKeys(c, {"version", "kind", "connectionId", "groupId", "sourceClass"});
    }
    assert v.fields == Written(ClaimIn(v)).fields;
  }

  lemma FieldsOf(kind: string, connectionId: string, groupId: string, key: string, value: string)
    requires key !in {"version", "kind", "connectionId", "groupId"}
    ensures var c := RouteFields(kind, connectionId, groupId, key, value);
            && c.Keys == {"version", "kind", "connectionId", "groupId", key} && |c| == 5
            && c["version"] == VERSION && c["kind"] == String(kind) && c["connectionId"] == String(connectionId)
            && c["groupId"] == String(groupId) && c[key] == String(value)
  {
    NamesDiffer();
    var c := RouteFields(kind, connectionId, groupId, key, value);
    assert c.Keys == {"version", "kind", "connectionId", "groupId"} + {key};
    assert |c| == |c.Keys|;
  }

  lemma CategoryIsAccepted(k: string, g: string, category: string)
    ensures var c := QqCategory(k, g, category);
            (IsCondition(Written(c)) <==> WellFormed(c)) && (WellFormed(c) ==> ClaimIn(Written(c)) == c)
  {
    NamesDiffer();
    FieldsOf("qq_category", k, g, "category", category);
    var c := Written(QqCategory(k, g, category)).fields;
    assert HasIdentifier(c, "connectionId") == IsIdentifier(k) && HasIdentifier(c, "groupId") == IsIdentifier(g);
    assert LastField(c, c["kind"]) == IsGroupCategory(category);
  }

  lemma SourceIsAccepted(k: string, g: string, sourceClass: string)
    ensures var c := QqMemorySource(k, g, sourceClass);
            (IsCondition(Written(c)) <==> WellFormed(c)) && (WellFormed(c) ==> ClaimIn(Written(c)) == c)
  {
    NamesDiffer();
    FieldsOf("qq_memory_source", k, g, "sourceClass", sourceClass);
    var c := Written(QqMemorySource(k, g, sourceClass)).fields;
    assert HasIdentifier(c, "connectionId") == IsIdentifier(k) && HasIdentifier(c, "groupId") == IsIdentifier(g);
    assert LastField(c, c["kind"]) == (sourceClass in SOURCE_CLASS_ACTIONS);
  }

  lemma WrittenIsAccepted(c: Claim)
    ensures IsCondition(Written(c)) <==> WellFormed(c)
    ensures WellFormed(c) ==> ClaimIn(Written(c)) == c
  {
    match c
    case NoCondition =>
      NamesDiffer();
      var fields := Written(c).fields;
      assert fields.Keys == {"version", "kind"} && |fields| == |fields.Keys|;
    case QqCategory(k, g, category) => CategoryIsAccepted(k, g, category);
    case QqMemorySource(k, g, sourceClass) => SourceIsAccepted(k, g, sourceClass);
  }

  /** Counting fields instead of naming them lets nothing else through: a value is accepted if and only
      if it is, as a tree, what some well-formed condition is written as, and it says which. */
  lemma AcceptsExactlyConditions(v: Json)
    ensures IsCondition(v) <==> exists c: Claim :: WellFormed(c) && v == Written(c)
    ensures IsCondition(v) ==> forall c: Claim :: WellFormed(c) && v == Written(c) ==> c == ClaimIn(v)
  {
    if IsCondition(v) {
      AcceptedIsWritten(v);
    }
    forall c: Claim | WellFormed(c) && v == Written(c) ensures IsCondition(v) && c == ClaimIn(v) {
      WrittenIsAccepted(c);
    }
  }

  // ---------------------------------------------------------------------------------------
  // Round trips

  /** What is stored always reads back, as the condition the ledger records. */
  lemma StoredRoutesReadBack(route: Route)
    ensures ReadPolicyCondition(PolicyConditionJson(route)) == Reading(StoredRoute(route))
  {
    if route.Named? {
      WrittenIsAccepted(route.claim);
    } else {
      WrittenIsAccepted(NoCondition);
    }
  }

  /** A recheck that passes on what it read writes the column it read, which is why a completed read
      can look for its decision by that text. */
  lemma ReadRoutesAreStoredAlike(column: Column)
    ensures var r := ReadPolicyCondition(column);
            r.Reading? ==> PolicyConditionJson(ProvenanceModel.RouteOf(r.condition)) == column
  {
    if column.Holds? && IsCondition(column.value) {
      AcceptedIsWritten(column.value);
    }
  }

  // ---------------------------------------------------------------------------------------
  // What storing does to the answer

  /** The route a later recheck states for a source that was reached by this one. */
  function Recalled(route: Route): Route {
    ProvenanceModel.RouteOf(StoredRoute(route))
  }

  /** A malformed claim becomes an unknown route, which is refused only for actions on groups: storing
      changes the answer exactly for a malformed claim on anything else. */
  lemma RecalledAnswersDifferExactlyWhen(env: Environment, t: Tuple, kind: string, route: Route)
    ensures RouteAllows(env, t, kind, Recalled(route)) != RouteAllows(env, t, kind, route)
            <==> route.Named? && !WellFormed(route.claim)
                 && !(kind == "qq_group" && "group:" <= t.resourceId && IsGroupAction(t.action))
  {
    if route.Named? && WellFormed(route.claim) {
      assert Recalled(route) == route;
    }
  }

  /** But a malformed claim never yields an ALLOW to recall: whatever was allowed is recalled by a route
      with the same answers in every environment, for every caller and Resource. */
  lemma AllowedRoutesAreRecalled(s: State, req: Request, completed: Option<nat>, now: int, env: Environment, t: Tuple, kind: string)
    requires Judge(s, req, completed, now).verdict.Allow?
    ensures ReadPolicyCondition(PolicyConditionJson(req.route)) == Reading(Recorded(req, Judge(s, req, completed, now)).condition)
    ensures RouteAllows(env, t, kind, ProvenanceModel.RouteOf(Recorded(req, Judge(s, req, completed, now)).condition))
            == RouteAllows(env, t, kind, req.route)
  {
    StoredRoutesReadBack(req.route);
    RecalledAnswersDifferExactlyWhen(env, t, kind, req.route);
    assert RouteAllows(s.env, req.tuple, s.env.resources[req.tuple.resourceId].kind, req.route);
  }
}
