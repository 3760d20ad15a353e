/** A secret stays with the profile, and the origin, it was supplied for. */
module ProfilesOrigins {
  import opened Options
  import opened ProfilesModel

  /** Profiles and slots are told apart, and a profile's secret was supplied for the profile's origin. */
  ghost predicate Owned(s: Settings) {
    && DistinctIds(s.profiles) && DistinctSlots(s.profiles)
    && (forall p :: p in s.profiles && p.slot.Some? && p.slot.value in s.credentials ==>
          p.slot.value in s.suppliedFor && s.suppliedFor[p.slot.value] == p.origin)
  }

  /** No secret is stored that no profile refers to. */
  ghost predicate Tidy(s: Settings) {
    forall slot :: slot in s.credentials ==> Referenced(s.profiles, slot)
  }

  lemma {:induction false} WithoutKeepsIds(ps: seq<Profile>, id: Id)
    requires DistinctIds(ps)
    ensures DistinctIds(Without(ps, id))
    decreases |ps|
  {
    if ps != [] {
      assert DistinctIds(ps[1..]);
      WithoutKeepsIds(ps[1..], id);
      var w := Without(ps[1..], id);
      forall q | q in w ensures q.id != ps[0].id {
        var i :| 0 <= i < |ps[1..]| && ps[1..][i] == q;
        assert ps[i + 1] == q;
      }
      assert forall i :: 0 <= i < |w| ==> w[i] in w;
    }
  }

  lemma {:induction false} WithoutKeepsSlots(ps: seq<Profile>, id: Id)
    requires DistinctSlots(ps)
    ensures DistinctSlots(Without(ps, id))
    decreases |ps|
  {
    if ps != [] {
      assert DistinctSlots(ps[1..]);
      WithoutKeepsSlots(ps[1..], id);
      var w := Without(ps[1..], id);
      forall q | q in w ensures ps[0].slot.Some? ==> q.slot != ps[0].slot {
        var i :| 0 <= i < |ps[1..]| && ps[1..][i] == q;
        assert ps[i + 1] == q;
      }
      assert forall i :: 0 <= i < |w| ==> w[i] in w;
    }
  }

  lemma WithoutKeepsApart(ps: seq<Profile>, id: Id)
    requires DistinctIds(ps) && DistinctSlots(ps)
    ensures DistinctIds(Without(ps, id)) && DistinctSlots(Without(ps, id))
  {
    WithoutKeepsIds(ps, id);
    WithoutKeepsSlots(ps, id);
  }

  lemma KeptAt(ps: seq<Profile>, all: map<Slot, string>, q: Profile)
    requires q in ps && q.slot.Some?
    ensures q.slot.value in Kept(ps, all) <==> q.slot.value in all
    ensures q.slot.value in all ==> Kept(ps, all)[q.slot.value] == all[q.slot.value]
  {
  }

  lemma SameProfile(ps: seq<Profile>, p: Profile, q: Profile)
    requires p in ps && q in ps
    ensures DistinctIds(ps) && p.id == q.id ==> p == q
    ensures DistinctSlots(ps) && p.slot.Some? && p.slot == q.slot ==> p == q
  {
    var i :| 0 <= i < |ps| && ps[i] == p;
    var j :| 0 <= j < |ps| && ps[j] == q;
  }

  lemma AppendKeepsApart(ps: seq<Profile>, p: Profile)
    requires DistinctIds(ps) && DistinctSlots(ps)
    requires forall q :: q in ps ==> q.id != p.id && (p.slot.Some? ==> q.slot != p.slot)
    ensures DistinctIds(ps + [p]) && DistinctSlots(ps + [p])
  {
    forall i | 0 <= i < |ps| ensures ps[i] in ps {
    }
  }

  // ---------------------------------------------------------------------------------------
  // Model profiles

  /** A model profile that names a slot has a secret in it. */
  ghost predicate ModelsInv(s: Settings) {
    Owned(s) && forall p :: p in s.profiles && p.slot.Some? ==> p.slot.value in s.credentials
  }

  lemma SavingModelsKeepsInv(s: Settings, input: Profile, secret: SecretInput, newSlot: Slot)
    requires ModelsInv(s) && SaveModel(s, input, secret, newSlot).Some?
    ensures ModelsInv(SaveModel(s, input, secret, newSlot).value)
  {
    var t := SaveModel(s, input, secret, newSlot).value;
    var current := Find(s.profiles, input.id);
    var rest := Without(s.profiles, input.id);
    var profile := input.(slot := ModelSlot(current, secret, newSlot));
    WithoutKeepsApart(s.profiles, input.id);
    forall q | q in rest ensures q.id != profile.id && (profile.slot.Some? ==> q.slot != profile.slot) {
      if current.Some? {
        SameProfile(s.profiles, q, current.value);
      }
    }
    AppendKeepsApart(rest, profile);
    forall p | p in t.profiles && p.slot.Some? && p.slot.value in t.credentials
      ensures p.slot.value in t.suppliedFor && t.suppliedFor[p.slot.value] == p.origin
    {
      assert p == profile || p in s.profiles;
    }
  }

  lemma {:induction false} ModelsInvAlways(s: Settings, es: seq<Event>)
    requires ModelsInv(s) && forall i :: 0 <= i < |es| ==> ForModels(es[i])
    ensures ModelsInv(After(s, es))
    decreases |es|
  {
    if es != [] {
      var e := es[0];
      if SaveModel(s, e.input, e.secret, e.newSlot).Some? {
        SavingModelsKeepsInv(s, e.input, e.secret, e.newSlot);
      }
      ModelsInvAlways(Step(s, e), es[1..]);
    }
  }

  // ---------------------------------------------------------------------------------------
  // Channels

  /** Every channel has a slot. */
  ghost predicate ChannelsInv(s: Settings) {
    Owned(s) && forall p :: p in s.profiles ==> p.slot.Some?
  }

  lemma SavingChannelsKeepsInv(s: Settings, input: Profile, secret: SecretInput, newSlot: Slot, vetoed: bool)
    requires ChannelsInv(s) && SaveChannel(s, input, secret, newSlot, vetoed).Some?
    ensures ChannelsInv(SaveChannel(s, input, secret, newSlot, vetoed).value)
  {
    var t := SaveChannel(s, input, secret, newSlot, vetoed).value;
    var current := Find(s.profiles, input.id);
    var slot := if current.Some? && current.value.slot.Some? then current.value.slot.value else newSlot;
    var profile := input.(slot := Some(slot));
    forall p | p in t.profiles && p.slot.value in t.credentials
      ensures p.slot.value in t.suppliedFor && t.suppliedFor[p.slot.value] == p.origin
    {
      if p != profile {
        assert p in s.profiles && p.slot.value != slot by {
          OtherChannelsHaveOtherSlots(s, p, input.id, newSlot);
        }
      } else if current.Some? {
        assert current.value in s.profiles;
      }
    }
  }

  lemma OtherChannelsHaveOtherSlots(s: Settings, p: Profile, id: Id, newSlot: Slot)
    requires ChannelsInv(s) && p in s.profiles && p.id != id && !Referenced(s.profiles, newSlot)
    ensures var current := Find(s.profiles, id);
            p.slot.value != if current.Some? then current.value.slot.value else newSlot
  {
    var current := Find(s.profiles, id);
    if current.Some? {
      SameProfile(s.profiles, p, current.value);
    }
  }

  /** Same profiles but for settings nobody's secret depends on. */
  ghost predicate SameSlots(ps: seq<Profile>, qs: seq<Profile>) {
    |qs| == |ps| && forall i :: 0 <= i < |ps| ==> qs[i].id == ps[i].id && qs[i].slot == ps[i].slot && qs[i].origin == ps[i].origin
  }

  lemma SameSlotsReferenced(ps: seq<Profile>, qs: seq<Profile>, slot: Slot)
    requires SameSlots(ps, qs) && Referenced(ps, slot)
    ensures Referenced(qs, slot)
  {
    var p :| p in ps && p.slot == Some(slot);
    var i :| 0 <= i < |ps| && ps[i] == p;
    assert qs[i] in qs;
  }

  lemma SameSlotsOwned(s: Settings, t: Settings)
    requires ChannelsInv(s) && SameSlots(s.profiles, t.profiles) && t.suppliedFor == s.suppliedFor
    requires forall slot :: slot in t.credentials ==> slot in s.credentials
    ensures ChannelsInv(t)
  {
    forall q | q in t.profiles
      ensures q.slot.Some? && (q.slot.value in t.credentials ==>
                q.slot.value in t.suppliedFor && t.suppliedFor[q.slot.value] == q.origin)
    {
      var i :| 0 <= i < |t.profiles| && t.profiles[i] == q;
      assert s.profiles[i] in s.profiles;
    }
  }

  /** A setter keeps exactly the secrets that some channel refers to. */
  lemma EditingChannelsKeepsInv(s: Settings, id: Id, settings: string)
    requires ChannelsInv(s) && EditChannel(s, id, settings).Some?
    ensures ChannelsInv(EditChannel(s, id, settings).value) && Tidy(EditChannel(s, id, settings).value)
    ensures EditChannel(s, id, settings).value.credentials == Kept(s.profiles, s.credentials)
  {
    var profiles := Edited(s.profiles, id, settings);
    forall slot ensures Referenced(profiles, slot) <==> Referenced(s.profiles, slot) {
      if Referenced(s.profiles, slot) {
        SameSlotsReferenced(s.profiles, profiles, slot);
      }
      if Referenced(profiles, slot) {
        SameSlotsReferenced(profiles, s.profiles, slot);
      }
    }
    SameSlotsOwned(s, EditChannel(s, id, settings).value);
  }

  lemma {:induction false} ChannelsInvAlways(s: Settings, es: seq<Event>)
    requires ChannelsInv(s) && forall i :: 0 <= i < |es| ==> !ForModels(es[i])
    ensures ChannelsInv(After(s, es))
    decreases |es|
  {
    if es != [] {
      match es[0] {
        case ESaveChannel(input, secret, slot, vetoed) =>
          if SaveChannel(s, input, secret, slot, vetoed).Some? {
            SavingChannelsKeepsInv(s, input, secret, slot, vetoed);
          }
        case EEditChannel(id, settings) =>
          if EditChannel(s, id, settings).Some? {
            EditingChannelsKeepsInv(s, id, settings);
          }
      }
      ChannelsInvAlways(Step(s, es[0]), es[1..]);
    }
  }

  // ---------------------------------------------------------------------------------------
  // What that means for a secret

  lemma OneOwner(s: Settings, slot: Slot) returns (owner: Profile)
    requires Owned(s) && slot in s.credentials && Referenced(s.profiles, slot)
    ensures owner in s.profiles && owner.slot == Some(slot) && forall p :: p in s.profiles && p.slot == Some(slot) ==> p == owner
    ensures slot in s.suppliedFor && s.suppliedFor[slot] == owner.origin
  {
    owner :| owner in s.profiles && owner.slot == Some(slot);
    forall p | p in s.profiles && p.slot == Some(slot) ensures p == owner {
      SameProfile(s.profiles, p, owner);
    }
  }

  /** The origin of the first profile with this slot. */
  function OriginOf(ps: seq<Profile>, slot: Slot): string
    decreases |ps|
  {
    if ps == [] then "" else if ps[0].slot == Some(slot) then ps[0].origin else OriginOf(ps[1..], slot)
  }

  /** A store opened from a file: the secrets in it count as supplied for the origins they are stored at. */
  function Opened(ps: seq<Profile>, credentials: map<Slot, string>): Settings {
    Settings(ps, credentials, map slot | slot in credentials :: OriginOf(ps, slot))
  }

  lemma {:induction false} OriginOfItsProfile(ps: seq<Profile>, p: Profile)
    requires DistinctSlots(ps) && p in ps && p.slot.Some?
    ensures OriginOf(ps, p.slot.value) == p.origin
    decreases |ps|
  {
    if ps[0].slot == p.slot {
      SameProfile(ps, p, ps[0]);
    } else {
      assert DistinctSlots(ps[1..]);
      OriginOfItsProfile(ps[1..], p);
    }
  }

  lemma OpenedIsOwned(ps: seq<Profile>, credentials: map<Slot, string>)
    requires DistinctIds(ps) && DistinctSlots(ps)
    ensures Owned(Opened(ps, credentials))
  {
    forall p | p in ps && p.slot.Some? && p.slot.value in credentials ensures OriginOf(ps, p.slot.value) == p.origin {
      OriginOfItsProfile(ps, p);
    }
  }

  lemma {:induction false} UnchangedOrTidy(s: Settings, es: seq<Event>)
    ensures After(s, es) == s || Tidy(After(s, es))
    decreases |es|
  {
    if es != [] {
      UnchangedOrTidy(Step(s, es[0]), es[1..]);
    }
  }

  /** The file a store can be opened from so that every secret has one profile. */
  ghost predicate Opens(models: bool, ps: seq<Profile>, credentials: map<Slot, string>) {
    if models then ModelFileReads(ps, credentials) && DistinctSlots(ps) else ChannelFileReads(ps, credentials)
  }

  /** In every history of a store opened from any file that gives each profile a slot of its own, as every channel
      file that reads does: a secret that is used belongs to exactly one profile, whose endpoint is at the origin in
      force when the secret was supplied, or at which the file had it; and once anything was saved, no secret is
      stored that is not used. */
  lemma SecretsStayWithTheirOrigin(models: bool, ps: seq<Profile>, credentials: map<Slot, string>, es: seq<Event>, s: Settings,
                                   slot: Slot) returns (owner: Profile)
    requires Opens(models, ps, credentials) && forall i :: 0 <= i < |es| ==> ForModels(es[i]) == models
    requires s == After(Opened(ps, credentials), es) && slot in s.credentials && Referenced(s.profiles, slot)
    ensures owner in s.profiles && owner.slot == Some(slot) && forall p :: p in s.profiles && p.slot == Some(slot) ==> p == owner
    ensures slot in s.suppliedFor && s.suppliedFor[slot] == owner.origin
    ensures s == Opened(ps, credentials) || Tidy(s)
  {
    var start := Opened(ps, credentials);
    OpenedIsOwned(ps, credentials);
    if models {
      ModelsInvAlways(start, es);
    } else {
      ChannelsInvAlways(start, es);
    }
    UnchangedOrTidy(start, es);
    owner := OneOwner(s, slot);
  }

  /** The same, for every stored secret, from a store without a file. */
  lemma SecretsStayFromTheBeginning(models: bool, es: seq<Event>, s: Settings, slot: Slot) returns (owner: Profile)
    requires forall i :: 0 <= i < |es| ==> ForModels(es[i]) == models
    requires s == After(EMPTY, es) && slot in s.credentials
    ensures owner in s.profiles && owner.slot == Some(slot) && forall p :: p in s.profiles && p.slot == Some(slot) ==> p == owner
    ensures slot in s.suppliedFor && s.suppliedFor[slot] == owner.origin
  {
    assert Opened([], map[]) == EMPTY;
    UnchangedOrTidy(EMPTY, es);
    owner := SecretsStayWithTheirOrigin(models, [], map[], es, s, slot);
  }

  // ---------------------------------------------------------------------------------------
  // Files that give two model profiles one slot

  predicate AllForModels(es: seq<Event>) {
    forall i :: 0 <= i < |es| ==> ForModels(es[i])
  }

  lemma SavingModelsKeepsSlotsApart(s: Settings, input: Profile, secret: SecretInput, newSlot: Slot)
    requires ModelFileReads(s.profiles, s.credentials) && DistinctSlots(s.profiles)
    requires SaveModel(s, input, secret, newSlot).Some?
    ensures DistinctSlots(SaveModel(s, input, secret, newSlot).value.profiles)
  {
    var current := Find(s.profiles, input.id);
    var rest := Without(s.profiles, input.id);
    var profile := input.(slot := ModelSlot(current, secret, newSlot));
    WithoutKeepsApart(s.profiles, input.id);
    forall q | q in rest ensures q.id != profile.id && (profile.slot.Some? ==> q.slot != profile.slot) {
      if current.Some? {
        SameProfile(s.profiles, q, current.value);
      }
    }
    AppendKeepsApart(rest, profile);
  }

  lemma {:induction false} SlotsStayApart(s: Settings, es: seq<Event>)
    requires ModelFileReads(s.profiles, s.credentials) && DistinctSlots(s.profiles) && AllForModels(es)
    ensures DistinctSlots(After(s, es).profiles)
    decreases |es|
  {
    if es != [] {
      var e := es[0];
      assert ForModels(e);
      if SaveModel(s, e.input, e.secret, e.newSlot).Some? {
        SavingModelsKeepsSlotsApart(s, e.input, e.secret, e.newSlot);
      }
      SlotsStayApart(Step(s, e), es[1..]);
    }
  }

  /** A model store keeps every profile on a slot of its own through every history exactly when the file it was
      opened from does; reading the file does not ask for it. */
  lemma SlotsStayApartExactlyWhen(s: Settings)
    requires ModelFileReads(s.profiles, s.credentials)
    ensures (forall es :: AllForModels(es) ==> DistinctSlots(After(s, es).profiles)) <==> DistinctSlots(s.profiles)
  {
    if DistinctSlots(s.profiles) {
      forall es | AllForModels(es) ensures DistinctSlots(After(s, es).profiles) {
        SlotsStayApart(s, es);
      }
    } else {
      assert AllForModels([]) && After(s, []) == s;
    }
  }

  function SlotOf(s: Settings, id: Id): Option<Slot> {
    var p := Find(s.profiles, id);
    if p.Some? then p.value.slot else None
  }

  /** Two profiles are used with one secret. */
  predicate Shares(s: Settings, a: Id, b: Id) {
    a != b && SlotOf(s, a).Some? && SlotOf(s, a) == SlotOf(s, b)
  }

  /** No save that went through gave either profile another secret or none. */
  ghost predicate KeepsBoth(s: Settings, es: seq<Event>, a: Id, b: Id)
    decreases |es|
  {
    es != [] ==>
      && (es[0].ESaveModel? && SaveModel(s, es[0].input, es[0].secret, es[0].newSlot).Some? ==>
            es[0].input.id !in [a, b] || es[0].secret.Keep?)
      && KeepsBoth(Step(s, es[0]), es[1..], a, b)
  }

  lemma {:induction false} FoundElsewhere(ps: seq<Profile>, p: Profile, id: Id)
    requires p.id != id
    ensures Find(Without(ps, p.id) + [p], id) == Find(ps, id)
    decreases |ps|
  {
    if ps == [] {
      assert Without(ps, p.id) + [p] == [p] && [p][1..] == [];
    } else {
      FoundElsewhere(ps[1..], p, id);
      var rest := Without(ps[1..], p.id);
      if ps[0].id != p.id {
        assert Without(ps, p.id) + [p] == [ps[0]] + (rest + [p]);
        assert (Without(ps, p.id) + [p])[1..] == rest + [p];
      }
    }
  }

  lemma SlotAfterSave(s: Settings, input: Profile, secret: SecretInput, newSlot: Slot, id: Id)
    requires SaveModel(s, input, secret, newSlot).Some?
    ensures SlotOf(SaveModel(s, input, secret, newSlot).value, id)
            == if id == input.id then ModelSlot(Find(s.profiles, id), secret, newSlot) else SlotOf(s, id)
  {
    var profile := input.(slot := ModelSlot(Find(s.profiles, input.id), secret, newSlot));
    if id == input.id {
      AppendedIsFound(Without(s.profiles, input.id), profile);
    } else {
      FoundElsewhere(s.profiles, profile, id);
    }
  }

  lemma SharingAfterSave(s: Settings, input: Profile, secret: SecretInput, newSlot: Slot, a: Id, b: Id)
    requires ModelFileReads(s.profiles, s.credentials) && SaveModel(s, input, secret, newSlot).Some?
    ensures Shares(SaveModel(s, input, secret, newSlot).value, a, b)
            <==> Shares(s, a, b) && (input.id !in [a, b] || secret.Keep?)
  {
    SlotAfterSave(s, input, secret, newSlot, a);
    SlotAfterSave(s, input, secret, newSlot, b);
  }

  /** Two model profiles are used with one secret exactly in the histories of a store whose file had them share it
      and in which every save of either that went through kept its secret: no save ever makes two profiles share,
      and supplying or removing one's secret is what parts them. */
  lemma {:induction false} SharingLastsExactlyWhile(s: Settings, es: seq<Event>, a: Id, b: Id)
    requires ModelFileReads(s.profiles, s.credentials) && AllForModels(es)
    ensures Shares(After(s, es), a, b) <==> Shares(s, a, b) && KeepsBoth(s, es, a, b)
    decreases |es|
  {
    if es != [] {
      var e := es[0];
      assert ForModels(e);
      if SaveModel(s, e.input, e.secret, e.newSlot).Some? {
        SharingAfterSave(s, e.input, e.secret, e.newSlot, a, b);
      }
      SharingLastsExactlyWhile(Step(s, e), es[1..], a, b);
    }
  }

  ghost predicate LeftAlone(s: Settings, t: Settings, q: Profile) {
    && q in t.profiles
    && (q.slot.Some? ==>
          && (q.slot.value in t.credentials <==> q.slot.value in s.credentials)
          && (q.slot.value in s.credentials ==> t.credentials[q.slot.value] == s.credentials[q.slot.value]))
  }

  /** A save that succeeds leaves no secret that nothing refers to, and leaves every other profile and
      its secret as they were. */
  lemma ModelSavesLeaveOthersAlone(s: Settings, input: Profile, secret: SecretInput, newSlot: Slot, q: Profile)
    requires ModelsInv(s) && q in s.profiles && q.id != input.id && SaveModel(s, input, secret, newSlot).Some?
    ensures var t := SaveModel(s, input, secret, newSlot).value;
            LeftAlone(s, t, q) && forall slot :: slot in t.credentials ==> Referenced(t.profiles, slot)
  {
    var t := SaveModel(s, input, secret, newSlot).value;
    assert q in Without(s.profiles, input.id);
    assert q in t.profiles;
  }

  lemma ChannelSavesLeaveOthersAlone(s: Settings, input: Profile, secret: SecretInput, newSlot: Slot, vetoed: bool, q: Profile)
    requires ChannelsInv(s) && q in s.profiles && q.id != input.id && SaveChannel(s, input, secret, newSlot, vetoed).Some?
    ensures var t := SaveChannel(s, input, secret, newSlot, vetoed).value;
            LeftAlone(s, t, q) && forall slot :: slot in t.credentials ==> Referenced(t.profiles, slot)
  {
    var current := Find(s.profiles, input.id);
    var slot := if current.Some? then current.value.slot.value else newSlot;
    OtherChannelsHaveOtherSlots(s, q, input.id, newSlot);
    ChannelLeavesAlone(s, input, slot, secret, q);
  }

  lemma ChannelLeavesAlone(s: Settings, input: Profile, slot: Slot, secret: SecretInput, q: Profile)
    requires q in s.profiles && q.id != input.id && q.slot.Some? && q.slot.value != slot
    ensures var ps := Without(s.profiles, input.id) + [input.(slot := Some(slot))];
            var all := match secret
              case Keep => s.credentials
              case Remove => s.credentials - {slot}
              case Supply(text) => s.credentials[slot := text];
            q in ps && LeftAlone(s, Settings(ps, Kept(ps, all), s.suppliedFor), q)
  {
    var ps := Without(s.profiles, input.id) + [input.(slot := Some(slot))];
    assert q in Without(s.profiles, input.id);
    assert q in ps;
    var all := match secret
      case Keep => s.credentials
      case Remove => s.credentials - {slot}
      case Supply(text) => s.credentials[slot := text];
    KeptAt(ps, all, q);
  }

  /** The secret a profile is used with. */
  function SecretOf(s: Settings, id: Id): Option<string> {
    var p := Find(s.profiles, id);
    if p.Some? && p.value.slot.Some? && p.value.slot.value in s.credentials then Some(s.credentials[p.value.slot.value]) else None
  }

  /** What a save was asked to do with the secret. */
  function Wanted(was: Option<string>, secret: SecretInput): Option<string> {
    match secret
    case Keep => was
    case Remove => None
    case Supply(text) => Some(text)
  }

  lemma {:induction false} AppendedIsFound(ps: seq<Profile>, p: Profile)
    requires forall q :: q in ps ==> q.id != p.id
    ensures Find(ps + [p], p.id) == Some(p)
    decreases |ps|
  {
    if ps == [] {
      assert ps + [p] == [p];
    } else {
      assert (ps + [p])[1..] == ps[1..] + [p];
      AppendedIsFound(ps[1..], p);
    }
  }

  /** After a save the profile is used with exactly the secret the save asked for, at the saved origin; keeping
      one across origins is refused. */
  lemma ModelSavesDoAsAsked(s: Settings, input: Profile, secret: SecretInput, newSlot: Slot)
    requires ModelsInv(s) && SaveModel(s, input, secret, newSlot).Some?
    ensures var t := SaveModel(s, input, secret, newSlot).value;
            && SecretOf(t, input.id) == Wanted(SecretOf(s, input.id), secret)
            && Find(t.profiles, input.id).Some? && Find(t.profiles, input.id).value.origin == input.origin
            && (secret.Keep? && SecretOf(s, input.id).Some? ==> Find(s.profiles, input.id).value.origin == input.origin)
  {
    var t := SaveModel(s, input, secret, newSlot).value;
    var profile := input.(slot := ModelSlot(Find(s.profiles, input.id), secret, newSlot));
    AppendedIsFound(Without(s.profiles, input.id), profile);
    assert profile in t.profiles;
  }

  function Applied(credentials: map<Slot, string>, slot: Slot, secret: SecretInput): map<Slot, string> {
    match secret
    case Keep => credentials
    case Remove => credentials - {slot}
    case Supply(text) => credentials[slot := text]
  }

  lemma ChannelSaved(s: Settings, input: Profile, secret: SecretInput, newSlot: Slot, vetoed: bool) returns (slot: Slot)
    requires ChannelsInv(s) && SaveChannel(s, input, secret, newSlot, vetoed).Some?
    ensures var (t, current) := (SaveChannel(s, input, secret, newSlot, vetoed).value, Find(s.profiles, input.id));
            && !vetoed && t.profiles == Without(s.profiles, input.id) + [input.(slot := Some(slot))]
            && t.credentials == Kept(t.profiles, Applied(s.credentials, slot, secret))
            && (current.Some? ==> current.value.slot == Some(slot)) && (current.None? ==> slot !in s.credentials)
            && (secret.Keep? && slot in s.credentials ==> current.Some? && current.value.origin == input.origin)
  {
    var current := Find(s.profiles, input.id);
    slot := if current.Some? && current.value.slot.Some? then current.value.slot.value else newSlot;
  }

  /** The same for a channel, which a veto leaves as it was. */
  lemma ChannelSavesDoAsAsked(s: Settings, input: Profile, secret: SecretInput, newSlot: Slot, vetoed: bool)
    requires ChannelsInv(s) && SaveChannel(s, input, secret, newSlot, vetoed).Some?
    ensures var t := SaveChannel(s, input, secret, newSlot, vetoed).value;
            && !vetoed && SecretOf(t, input.id) == Wanted(SecretOf(s, input.id), secret)
            && Find(t.profiles, input.id).Some? && Find(t.profiles, input.id).value.origin == input.origin
            && (secret.Keep? && SecretOf(s, input.id).Some? ==> Find(s.profiles, input.id).value.origin == input.origin)
  {
    var t := SaveChannel(s, input, secret, newSlot, vetoed).value;
    var slot := ChannelSaved(s, input, secret, newSlot, vetoed);
    var profile := input.(slot := Some(slot));
    AppendedIsFound(Without(s.profiles, input.id), profile);
    assert profile in t.profiles;
    KeptAt(t.profiles, Applied(s.credentials, slot, secret), profile);
  }

  /** Such a file reads, at two origins too; a channel file like that does not. */
  lemma SharedModelSlotsAreRead(a: Profile, b: Profile, slot: Slot, secret: string)
    requires a.id != b.id && a.slot == Some(slot) == b.slot
    ensures ModelFileReads([a, b], map[slot := secret]) && Shares(Opened([a, b], map[slot := secret]), a.id, b.id)
    ensures !ChannelFileReads([a, b], map[slot := secret])
  {
    assert [a, b][0].slot == [a, b][1].slot;
    assert [a, b][1..] == [b];
  }
}
