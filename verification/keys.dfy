/** Keys built from the canonical text: channel scopes, cache entries and repeated tool calls. */
module CanonicalKeys {
  import opened Options
  import opened StableJson
  import opened StableJsonUnique

  // ---------------------------------------------------------------------------------------
  // Channel scopes

  datatype ChatType = Private | Group

  datatype Scope = Scope(connectionId: Text, botId: Text, chatType: ChatType, chatId: Text, senderId: Text,
                         threadId: Option<Text>)

  const PRIVATE_TEXT: Text := [0x70, 0x72, 0x69, 0x76, 0x61, 0x74, 0x65]
  const GROUP_TEXT: Text := [0x67, 0x72, 0x6F, 0x75, 0x70]

  function ChatText(c: ChatType): Value {
    Str(if c.Private? then PRIVATE_TEXT else GROUP_TEXT)
  }

  function ThreadText(t: Option<Text>): Value {
    if t.None? then Null else Str(t.value)
  }

  function ScopeTuple(s: Scope): Value {
    Arr([Str(s.connectionId), Str(s.botId), ChatText(s.chatType), Str(s.chatId), Str(s.senderId), ThreadText(s.threadId)])
  }

  function LocationTuple(s: Scope): Value {
    Arr([Str(s.connectionId), Str(s.botId), ChatText(s.chatType), Str(s.chatId), ThreadText(s.threadId)])
  }

  ghost function ScopeKey(s: Scope): Text { Encode(ScopeTuple(s)) }

  ghost function ConversationScopeKey(s: Scope): Text { Encode(LocationTuple(s)) }

  ghost function IdentityKey(s: Scope): Text {
    Encode(Arr([Str(s.connectionId), Str(s.botId), Str(s.senderId)]))
  }

  /** The stored key of a private Conversation opened after its location changed hands. */
  ghost function PerPrincipalKey(s: Scope, principalId: Text): Text {
    Encode(Arr([Str(ConversationScopeKey(s)), Str(principalId)]))
  }

  predicate SameLocation(s: Scope, t: Scope) {
    && s.connectionId == t.connectionId && s.botId == t.botId && s.chatType == t.chatType
    && s.chatId == t.chatId && s.threadId == t.threadId
  }

  lemma TuplesArePrintable(s: Scope, principalId: Text)
    ensures Printable(ScopeTuple(s)) && Printable(LocationTuple(s))
    ensures Printable(Arr([Str(s.connectionId), Str(s.botId), Str(s.senderId)]))
    ensures Printable(Arr([Str(ConversationScopeKey(s)), Str(principalId)]))
  {
  }

  /** No two namespaces collide: each key determines exactly the fields it was built from. */
  lemma ScopeKeysAreExact(s: Scope, t: Scope, p: Text, q: Text)
    ensures ScopeKey(s) == ScopeKey(t) <==> s == t
    ensures ConversationScopeKey(s) == ConversationScopeKey(t) <==> SameLocation(s, t)
    ensures IdentityKey(s) == IdentityKey(t) <==>
            s.connectionId == t.connectionId && s.botId == t.botId && s.senderId == t.senderId
    ensures PerPrincipalKey(s, p) == PerPrincipalKey(t, q) <==> SameLocation(s, t) && p == q
    ensures PerPrincipalKey(s, p) != ConversationScopeKey(t)
    ensures ScopeKey(s) != ConversationScopeKey(t)
  {
    TuplesArePrintable(s, p);
    TuplesArePrintable(t, q);
    StableJsonDecidesEquality(ScopeTuple(s), ScopeTuple(t));
    StableJsonDecidesEquality(LocationTuple(s), LocationTuple(t));
    StableJsonDecidesEquality(ScopeTuple(s), LocationTuple(t));
    var i, j := [Str(s.connectionId), Str(s.botId), Str(s.senderId)], [Str(t.connectionId), Str(t.botId), Str(t.senderId)];
    StableJsonDecidesEquality(Arr(i), Arr(j));
    var a, b := [Str(ConversationScopeKey(s)), Str(p)], [Str(ConversationScopeKey(t)), Str(q)];
    StableJsonDecidesEquality(Arr(a), Arr(b));
    StableJsonDecidesEquality(Arr(a), LocationTuple(t));
    SameItems(ScopeTuple(s).items, ScopeTuple(t).items);
    SameItems(LocationTuple(s).items, LocationTuple(t).items);
    SameItems(i, j);
    SameItems(a, b);
  }

  lemma SameItems(a: seq<Value>, b: seq<Value>)
    ensures a == b <==> |a| == |b| && forall i :: 0 <= i < |a| ==> a[i] == b[i]
  {
  }

  // ---------------------------------------------------------------------------------------
  // Cached context

  datatype CacheIdentity = CacheIdentity(
    agentId: Text, principalId: Text, locationKey: Text, conversationId: Text, resourceId: Text,
    authorizedResourceFingerprint: Text, action: Text, authorizationRevision: Text, sourceRevision: Text,
    retrievalPolicyVersion: Text, runtimeProfileDigest: Text, behaviorVersion: Text,
    projectionPolicyVersion: Text, contextVersion: Text)

  /** SHA-256, taken to be collision free. */
  ghost predicate CollisionFree(digest: Text -> Text) {
    forall x, y :: digest(x) == digest(y) ==> x == y
  }

  /** The constant value of the key's extra field, "authorized_context_fragment". */
  const FRAGMENT: Text := [
    0x61, 0x75, 0x74, 0x68, 0x6F, 0x72, 0x69, 0x7A, 0x65, 0x64, 0x5F, 0x63, 0x6F, 0x6E,
    0x74, 0x65, 0x78, 0x74, 0x5F, 0x66, 0x72, 0x61, 0x67, 0x6D, 0x65, 0x6E, 0x74]

  function IdentityValues(c: CacheIdentity): seq<Value> {
    [Str(c.agentId), Str(c.principalId), Str(c.locationKey), Str(c.conversationId), Str(c.resourceId),
     Str(c.authorizedResourceFingerprint), Str(c.action), Str(c.authorizationRevision), Str(c.sourceRevision),
     Str(c.retrievalPolicyVersion), Str(c.runtimeProfileDigest), Str(c.behaviorVersion),
     Str(c.projectionPolicyVersion), Str(c.contextVersion)]
  }

  lemma IdentityValuesAreExact(a: CacheIdentity, b: CacheIdentity)
    ensures IdentityValues(a) == IdentityValues(b) <==> a == b
  {
    if IdentityValues(a) == IdentityValues(b) {
      assert forall i :: 0 <= i < 14 ==> IdentityValues(a)[i].text == IdentityValues(b)[i].text;
    }
  }

  /** The names of an object literal's fields, in any order: only their distinctness matters. */
  ghost predicate Distinct(names: seq<Text>) {
    forall i, j :: 0 <= i < j < |names| ==> names[i] != names[j]
  }

  /** The object literal with these fields. */
  ghost function ObjectOf(names: seq<Text>, values: seq<Value>): map<Text, Value>
    requires |names| == |values|
  {
    if names == [] then map[]
    else
      var n := |names| - 1;
      ObjectOf(names[..n], values[..n])[names[n] := values[n]]
  }

  lemma {:induction false} FieldOf(names: seq<Text>, values: seq<Value>, i: nat)
    requires |names| == |values| && Distinct(names) && i < |names|
    ensures names[i] in ObjectOf(names, values) && ObjectOf(names, values)[names[i]] == values[i]
  {
    var n := |names| - 1;
    if i < n {
      FieldOf(names[..n], values[..n], i);
    }
  }

  lemma {:induction false} ObjectIsPrintable(names: seq<Text>, values: seq<Value>)
    requires |names| == |values| && forall v :: v in values ==> Printable(v)
    ensures Printable(Obj(ObjectOf(names, values)))
  {
    if names != [] {
      var n := |names| - 1;
      ObjectIsPrintable(names[..n], values[..n]);
    }
  }

  /** Objects with the same field names have one text exactly when all their fields agree. */
  lemma ObjectsAreExact(names: seq<Text>, a: seq<Value>, b: seq<Value>)
    requires |names| == |a| == |b| && Distinct(names)
    requires (forall v :: v in a ==> Printable(v)) && (forall v :: v in b ==> Printable(v))
    ensures Encode(Obj(ObjectOf(names, a))) == Encode(Obj(ObjectOf(names, b))) <==> a == b
  {
    ObjectIsPrintable(names, a);
    ObjectIsPrintable(names, b);
    StableJsonDecidesEquality(Obj(ObjectOf(names, a)), Obj(ObjectOf(names, b)));
    if ObjectOf(names, a) == ObjectOf(names, b) {
      forall i | 0 <= i < |a| ensures a[i] == b[i] {
        FieldOf(names, a, i);
        FieldOf(names, b, i);
      }
    }
  }

  ghost function IdentityText(fields: seq<Text>, c: CacheIdentity): Text
    requires Distinct(fields) && |fields| == 14
  {
    Encode(Obj(ObjectOf(fields, IdentityValues(c))))
  }

  /** The key also hashes a constant "kind" field. */
  ghost function CacheKey(digest: Text -> Text, kind: Text, fields: seq<Text>, c: CacheIdentity): Text
    requires Distinct([kind] + fields) && |fields| == 14
  {
    digest(Encode(Obj(ObjectOf([kind] + fields, [Str(FRAGMENT)] + IdentityValues(c)))))
  }

  lemma IdentityTextsAreExact(fields: seq<Text>, a: CacheIdentity, b: CacheIdentity)
    requires Distinct(fields) && |fields| == 14
    ensures IdentityText(fields, a) == IdentityText(fields, b) <==> a == b
  {
    ObjectsAreExact(fields, IdentityValues(a), IdentityValues(b));
    IdentityValuesAreExact(a, b);
  }

  lemma CacheKeysAreExact(digest: Text -> Text, kind: Text, fields: seq<Text>, a: CacheIdentity, b: CacheIdentity)
    requires CollisionFree(digest) && Distinct([kind] + fields) && |fields| == 14
    ensures CacheKey(digest, kind, fields, a) == CacheKey(digest, kind, fields, b) <==> a == b
  {
    var k := [Str(FRAGMENT)];
    ObjectsAreExact([kind] + fields, k + IdentityValues(a), k + IdentityValues(b));
    IdentityValuesAreExact(a, b);
    assert (k + IdentityValues(a))[1..] == IdentityValues(a);
    assert (k + IdentityValues(b))[1..] == IdentityValues(b);
  }

  datatype CacheEntry<T> = CacheEntry(isContextFragment: bool, key: Text, identity: CacheIdentity,
                                      expiresAt: Option<int>, value: T)

  lemma DistinctTail(kind: Text, fields: seq<Text>)
    requires Distinct([kind] + fields)
    ensures Distinct(fields)
  {
    assert forall i :: 0 <= i < |fields| ==> fields[i] == ([kind] + fields)[i + 1];
  }

  ghost predicate EntryIsValid<T>(digest: Text -> Text, kind: Text, fields: seq<Text>, e: CacheEntry<T>,
                                  current: CacheIdentity, now: int)
    requires Distinct([kind] + fields) && |fields| == 14
  {
    && e.isContextFragment
    && e.expiresAt.Some?
    && e.expiresAt.value > now
    && e.key == CacheKey(digest, kind, fields, current)
    && (DistinctTail(kind, fields); digest(IdentityText(fields, e.identity)) == digest(IdentityText(fields, current)))
  }

  /** A hit means the entry was stored for exactly the current identity and has not expired;
      an entry stored under its own key is a hit in every such case and in no other. */
  lemma CacheHitIsExact<T>(digest: Text -> Text, kind: Text, fields: seq<Text>, e: CacheEntry<T>,
                           current: CacheIdentity, now: int)
    requires CollisionFree(digest) && Distinct([kind] + fields) && |fields| == 14
    ensures EntryIsValid(digest, kind, fields, e, current, now) ==>
              (&& e.identity == current && e.isContextFragment
               && e.expiresAt.Some? && now < e.expiresAt.value
               && forall owner :: e.key == CacheKey(digest, kind, fields, owner) ==> owner == current)
    ensures e.key == CacheKey(digest, kind, fields, e.identity) ==>
              (EntryIsValid(digest, kind, fields, e, current, now) <==>
               e.isContextFragment && e.expiresAt.Some? && now < e.expiresAt.value && e.identity == current)
  {
    DistinctTail(kind, fields);
    IdentityTextsAreExact(fields, e.identity, current);
    forall owner | e.key == CacheKey(digest, kind, fields, owner) && e.key == CacheKey(digest, kind, fields, current)
      ensures owner == current
    {
      CacheKeysAreExact(digest, kind, fields, owner, current);
    }
  }

  // ---------------------------------------------------------------------------------------
  // Repeated tool calls

  datatype CallIdentity = CallIdentity(authorityScope: Text, resourceId: Text, semanticKey: Option<Text>,
                                       toolName: Text, input: Value)

  function CallValues(c: CallIdentity): seq<Value> {
    [Str(c.authorityScope), Str(c.resourceId), if c.semanticKey.None? then Undefined else Str(c.semanticKey.value),
     Str(c.toolName), c.input]
  }

  lemma CallValuesAreExact(a: CallIdentity, b: CallIdentity)
    ensures CallValues(a) == CallValues(b) <==> a == b
  {
    if CallValues(a) == CallValues(b) {
      assert forall i :: 0 <= i < 5 ==> CallValues(a)[i] == CallValues(b)[i];
    }
  }

  ghost function DuplicateCallKey(digest: Text -> Text, fields: seq<Text>, c: CallIdentity): Text
    requires Distinct(fields) && |fields| == 5
  {
    digest(Encode(Obj(ObjectOf(fields, CallValues(c)))))
  }

  /** Two calls share a key exactly when they are the same call on the same input tree. */
  lemma CallKeysAreExact(digest: Text -> Text, fields: seq<Text>, a: CallIdentity, b: CallIdentity)
    requires Distinct(fields) && |fields| == 5
    requires CollisionFree(digest) && Printable(a.input) && Printable(b.input)
    ensures DuplicateCallKey(digest, fields, a) == DuplicateCallKey(digest, fields, b) <==> a == b
  {
    ObjectsAreExact(fields, CallValues(a), CallValues(b));
    CallValuesAreExact(a, b);
  }
}
