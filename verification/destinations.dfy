/** When a stored destination is at a location, however the destination was written. */
module Destinations {
  import opened Options
  import opened StableJson
  import opened StableJsonUnique
  import opened CanonicalKeys

  /** JSON.parse; None where it throws. */
  type Parser = Text -> Option<Value>

  /** A location's key reads back as the tuple it was written from. */
  ghost predicate ReadsLocations(parse: Parser) {
    forall s :: parse(ConversationScopeKey(s)) == Some(LocationTuple(s))
  }

  function Units(s: string): Text
    requires forall i :: 0 <= i < |s| ==> s[i] < 128 as char
  {
    seq(|s|, i requires 0 <= i < |s| => s[i] as int)
  }

  const IDENTIFIER_LIMIT: nat := 512

  predicate ValidIdentifier(t: Text) {
    0 < |t| <= IDENTIFIER_LIMIT && forall i :: 0 <= i < |t| ==> t[i] >= 32
  }

  function Identifier(m: map<Text, Value>, field: Text): Option<Text> {
    if field in m && m[field].Str? && ValidIdentifier(m[field].text) then Some(m[field].text) else None
  }

  function ChatTypeOf(m: map<Text, Value>): Option<ChatType> {
    var field := Units("chatType");
    if field !in m then None
    else if m[field] == Str(PRIVATE_TEXT) then Some(Private)
    else if m[field] == Str(GROUP_TEXT) then Some(Group)
    else None
  }

  /** The checks of a scope and the thread it may name; a thread of null is refused, unlike in a tuple.
      `good` says whether a role observed in a group is well formed. */
  function ScopeOf(m: map<Text, Value>, good: Value -> bool): Option<Scope> {
    var connection, bot, chat := Identifier(m, Units("connectionId")), Identifier(m, Units("botId")), Identifier(m, Units("chatId"));
    var sender, kind := Identifier(m, Units("senderId")), ChatTypeOf(m);
    var thread, role := Units("threadId"), Units("nativeGroupRole");
    if connection.None? || bot.None? || chat.None? || sender.None? || kind.None? then None
    else if thread in m && Identifier(m, thread).None? then None
    else if role in m && !(kind.value.Group? && good(m[role])) then None
    else Some(Scope(connection.value, bot.value, kind.value, chat.value, sender.value, Identifier(m, thread)))
  }

  /** The tuple whose text is compared with a location's key: of an array the sender is dropped, wherever the array
      came from; an object is read as a scope. */
  function PlaceOf(v: Value, good: Value -> bool): Option<Value> {
    match v
    case Arr(xs) =>
      if |xs| < 5 then None
      else Some(Arr(xs[..4] + [if |xs| > 5 && !xs[5].Undefined? then xs[5] else Null]))
    case Obj(m) => if ScopeOf(m, good).None? then None else Some(LocationTuple(ScopeOf(m, good).value))
    case _ => None
  }

  ghost predicate MatchesDestinationLocation(parse: Parser, good: Value -> bool, destination: Text, target: Text) {
    || destination == target
    || (&& parse(destination).Some? && PlaceOf(parse(destination).value, good).Some?
        && Encode(PlaceOf(parse(destination).value, good).value) == target)
  }

  /** What is written like nothing at all. */
  predicate Blank(v: Value) { v.Null? || v.Undefined? || v.NonFinite? }

  /** The parsed destination is at the location. */
  predicate IsAt(v: Value, good: Value -> bool, t: Scope) {
    match v
    case Arr(xs) =>
      && |xs| >= 5 && xs[..4] == Chat(t)
      && if t.threadId.Some? then |xs| > 5 && xs[5] == Str(t.threadId.value) else |xs| == 5 || Blank(xs[5])
    case Obj(m) => ScopeOf(m, good).Some? && SameLocation(ScopeOf(m, good).value, t)
    case _ => false
  }

  lemma FiveNormal(xs: seq<Value>)
    requires |xs| == 5
    ensures Normal(Arr(xs)) == Arr([Normal(xs[0]), Normal(xs[1]), Normal(xs[2]), Normal(xs[3]), Normal(xs[4])])
  {
    OneNormal(xs);
    OneNormal(xs[1..]);
    OneNormal(xs[2..]);
    OneNormal(xs[3..]);
    OneNormal(xs[4..]);
    assert xs[1..][1..] == xs[2..] && xs[2..][1..] == xs[3..] && xs[3..][1..] == xs[4..] && xs[4..][1..] == [];
  }

  lemma OneNormal(xs: seq<Value>)
    requires xs != []
    ensures NormalItems(xs) == [Normal(xs[0])] + NormalItems(xs[1..]) && NormalItems([]) == []
  {
  }

  /** Connection, bot, chat type and chat. */
  function Chat(s: Scope): seq<Value> { [Str(s.connectionId), Str(s.botId), ChatText(s.chatType), Str(s.chatId)] }

  lemma ChatsAreExact(s: Scope, t: Scope)
    ensures Chat(s) == Chat(t) <==> SameLocation(s.(threadId := None), t.(threadId := None))
    ensures LocationTuple(s).items[..4] == Chat(s) && ScopeTuple(s).items[..4] == Chat(s)
  {
    SameItems(Chat(s), Chat(t));
    assert |PRIVATE_TEXT| == 7 && |GROUP_TEXT| == 5;
  }

  /** Only the string itself is written like a string. */
  lemma OnlyStringsAreNormalStrings(v: Value, w: Value)
    requires w.Str?
    ensures Normal(v) == w <==> v == w
  {
  }

  lemma WrittenAlike(xs: seq<Value>, t: Scope)
    requires |xs| == 5
    ensures Encode(Arr(xs)) == ConversationScopeKey(t) <==> xs[..4] == Chat(t) && Normal(xs[4]) == ThreadText(t.threadId)
  {
    TuplesArePrintable(t, []);
    PrintableIsNormal(LocationTuple(t));
    StableJsonDecidesEquality(Arr(xs), LocationTuple(t));
    FiveNormal(xs);
    FiveAlike(xs, LocationTuple(t).items);
    ChatsAreExact(t, t);
  }

  lemma FiveAlike(xs: seq<Value>, ys: seq<Value>)
    requires |xs| == |ys| == 5 && forall i :: 0 <= i < 4 ==> ys[i].Str?
    ensures [Normal(xs[0]), Normal(xs[1]), Normal(xs[2]), Normal(xs[3]), Normal(xs[4])] == ys
            <==> xs[..4] == ys[..4] && Normal(xs[4]) == ys[4]
  {
    forall i | 0 <= i < 4 ensures Normal(xs[i]) == ys[i] <==> xs[i] == ys[i] {
      OnlyStringsAreNormalStrings(xs[i], ys[i]);
    }
    var zs := [Normal(xs[0]), Normal(xs[1]), Normal(xs[2]), Normal(xs[3]), Normal(xs[4])];
    SameItems(zs, ys);
    SameItems(xs[..4], ys[..4]);
    if zs == ys {
      assert zs[0] == ys[0] && zs[1] == ys[1] && zs[2] == ys[2] && zs[3] == ys[3] && zs[4] == ys[4];
      assert forall i :: 0 <= i < 4 ==> xs[..4][i] == xs[i];
    } else if xs[..4] == ys[..4] {
      assert xs[0] == ys[..4][0] && xs[1] == ys[..4][1] && xs[2] == ys[..4][2] && xs[3] == ys[..4][3];
    }
  }

  /** A destination matches a location if and only if it is the location's own key, or reads as an array or an object
      that is at the location. */
  lemma DestinationMatchesExactlyWhen(parse: Parser, good: Value -> bool, destination: Text, t: Scope)
    ensures MatchesDestinationLocation(parse, good, destination, ConversationScopeKey(t))
            <==> destination == ConversationScopeKey(t) || (parse(destination).Some? && IsAt(parse(destination).value, good, t))
  {
    if parse(destination).Some? {
      match parse(destination).value
      case Arr(xs) =>
        if |xs| >= 5 {
          WrittenAlike(xs[..4] + [if |xs| > 5 && !xs[5].Undefined? then xs[5] else Null], t);
        }
      case Obj(m) =>
        if ScopeOf(m, good).Some? {
          ScopeKeysAreExact(ScopeOf(m, good).value, t, [], []);
        }
      case _ =>
    }
  }

  /** A destination written for a scope, as its key in any JSON text or as an object, matches a location if and only
      if the scope is at that location. */
  lemma DestinationMatchesItsLocation(parse: Parser, good: Value -> bool, destination: Text, s: Scope, t: Scope)
    requires ReadsLocations(parse)
    requires || parse(destination) == Some(ScopeTuple(s))
             || (exists m :: parse(destination) == Some(Obj(m)) && ScopeOf(m, good) == Some(s))
    ensures MatchesDestinationLocation(parse, good, destination, ConversationScopeKey(t)) <==> SameLocation(s, t)
  {
    DestinationMatchesExactlyWhen(parse, good, destination, t);
    assert parse(ConversationScopeKey(t)) == Some(LocationTuple(t)) && |LocationTuple(t).items| < |ScopeTuple(s).items|;
    if parse(destination) == Some(ScopeTuple(s)) {
      ChatsAreExact(s, t);
    }
  }

  /** A location's own key, stored as a destination, is read as if its thread were a sender: it matches its own
      location, and also the one without a thread. */
  lemma LocationKeysMatchTheirChatToo(parse: Parser, good: Value -> bool, s: Scope, t: Scope)
    requires ReadsLocations(parse)
    ensures MatchesDestinationLocation(parse, good, ConversationScopeKey(s), ConversationScopeKey(t))
            <==> SameLocation(s, t) || SameLocation(s.(threadId := None), t)
  {
    DestinationMatchesExactlyWhen(parse, good, ConversationScopeKey(s), t);
    ScopeKeysAreExact(s, t, [], []);
    ChatsAreExact(s, t);
  }

  // ---------------------------------------------------------------------------------------
  // Reading a scope

  /** The field is there and says this, which can be an identifier. */
  ghost predicate Says(m: map<Text, Value>, field: Text, t: Text) {
    field in m && m[field] == Str(t) && 1 <= |t| <= 512 && forall c :: c in t ==> c >= 32
  }

  lemma IdentifiersAreSaid(m: map<Text, Value>, field: Text, t: Text)
    ensures Identifier(m, field) == Some(t) <==> Says(m, field, t)
  {
    if Says(m, field, t) {
      forall i | 0 <= i < |t| ensures t[i] >= 32 {
        assert t[i] in t;
      }
    }
  }

  /** An object is read as this scope if and only if its fields say so: each part an identifier, the chat private or a
      group, the thread said or not there at all, and a role only where there may be one. */
  lemma ScopesAreReadExactly(m: map<Text, Value>, good: Value -> bool, k: Scope)
    ensures ScopeOf(m, good) == Some(k) <==>
              && Says(m, Units("connectionId"), k.connectionId) && Says(m, Units("botId"), k.botId)
              && Says(m, Units("chatId"), k.chatId) && Says(m, Units("senderId"), k.senderId)
              && Units("chatType") in m && m[Units("chatType")] == Str(if k.chatType.Private? then Units("private") else Units("group"))
              && (if k.threadId.Some? then Says(m, Units("threadId"), k.threadId.value) else Units("threadId") !in m)
              && (Units("nativeGroupRole") in m ==> k.chatType.Group? && good(m[Units("nativeGroupRole")]))
  {
    assert Units("private") == PRIVATE_TEXT && Units("group") == GROUP_TEXT && |PRIVATE_TEXT| != |GROUP_TEXT|;
    IdentifiersAreSaid(m, Units("connectionId"), k.connectionId);
    IdentifiersAreSaid(m, Units("botId"), k.botId);
    IdentifiersAreSaid(m, Units("chatId"), k.chatId);
    IdentifiersAreSaid(m, Units("senderId"), k.senderId);
    if k.threadId.Some? {
      IdentifiersAreSaid(m, Units("threadId"), k.threadId.value);
    }
  }
}
