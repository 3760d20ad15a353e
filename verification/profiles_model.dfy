/** Model and channel profiles and the secrets stored with them. */
module ProfilesModel {
  import opened Options

  type Id = string

  type Slot = string

  /** `endpoint` is the whole address and `origin` the part of it a secret is meant for. A model
      profile may have no slot; a channel always has its own, with or without a secret in it. */
  datatype Profile = Profile(id: Id, origin: string, endpoint: string, settings: string, slot: Option<Slot>)

  /** Omitting the secret keeps it, null removes it, text replaces it. */
  datatype SecretInput = Keep | Remove | Supply(secret: string)

  /** `suppliedFor` is history: the origin in force when each slot last received its secret. */
  datatype Settings = Settings(profiles: seq<Profile>, credentials: map<Slot, string>, suppliedFor: map<Slot, string>)

  const EMPTY: Settings := Settings([], map[], map[])

  const PROFILE_LIMIT: nat := 100

  function Find(ps: seq<Profile>, id: Id): (r: Option<Profile>)
    ensures r.Some? ==> r.value in ps && r.value.id == id
    ensures r.None? ==> forall p :: p in ps ==> p.id != id
    decreases |ps|
  {
    if ps == [] then None else if ps[0].id == id then Some(ps[0]) else Find(ps[1..], id)
  }

  function Without(ps: seq<Profile>, id: Id): (r: seq<Profile>)
    ensures forall p :: p in r <==> p in ps && p.id != id
    ensures |r| <= |ps|
    decreases |ps|
  {
    if ps == [] then []
    else if ps[0].id == id then Without(ps[1..], id)
    else [ps[0]] + Without(ps[1..], id)
  }

  predicate Referenced(ps: seq<Profile>, slot: Slot) {
    exists p :: p in ps && p.slot == Some(slot)
  }

  /** Secrets nothing refers to do not reach the file. */
  function Kept(ps: seq<Profile>, credentials: map<Slot, string>): map<Slot, string> {
    map slot | slot in credentials && Referenced(ps, slot) :: credentials[slot]
  }

  predicate DistinctIds(ps: seq<Profile>) {
    forall i, j :: 0 <= i < j < |ps| ==> ps[i].id != ps[j].id
  }

  predicate DistinctSlots(ps: seq<Profile>) {
    forall i, j :: 0 <= i < j < |ps| && ps[i].slot.Some? ==> ps[i].slot != ps[j].slot
  }

  /** Reading back a model file: every slot a profile names has its secret. */
  predicate ModelFileReads(ps: seq<Profile>, credentials: map<Slot, string>) {
    && |ps| <= PROFILE_LIMIT && |credentials| <= PROFILE_LIMIT && DistinctIds(ps)
    && forall p :: p in ps && p.slot.Some? ==> p.slot.value in credentials
  }

  /** Reading back a channel file: every channel has its own slot. */
  predicate ChannelFileReads(ps: seq<Profile>, credentials: map<Slot, string>) {
    && |ps| <= PROFILE_LIMIT && |credentials| <= PROFILE_LIMIT && DistinctIds(ps) && DistinctSlots(ps)
    && forall p :: p in ps ==> p.slot.Some?
  }

  // ---------------------------------------------------------------------------------------
  // Model profiles

  function ModelSlot(current: Option<Profile>, secret: SecretInput, newSlot: Slot): Option<Slot> {
    match secret
    case Keep => if current.Some? then current.value.slot else None
    case Remove => None
    case Supply(_) => Some(newSlot)
  }

  /** Another API origin needs another secret, or none. A supplied secret gets a slot of its own. */
  function SaveModel(s: Settings, input: Profile, secret: SecretInput, newSlot: Slot): Option<Settings> {
    var current := Find(s.profiles, input.id);
    if current.None? && |s.profiles| >= PROFILE_LIMIT then None
    else if current.Some? && current.value.slot.Some? && secret.Keep? && current.value.origin != input.origin then None
    else if newSlot in s.credentials || newSlot in s.suppliedFor then None
    else
      var profile := input.(slot := ModelSlot(current, secret, newSlot));
      var profiles := Without(s.profiles, input.id) + [profile];
      var all := if secret.Supply? then s.credentials[newSlot := secret.secret] else s.credentials;
      var credentials := Kept(profiles, all);
      if !ModelFileReads(profiles, credentials) then None
      else
        Some(Settings(profiles, credentials, if secret.Supply? then s.suppliedFor[newSlot := input.origin] else s.suppliedFor))
  }

  // ---------------------------------------------------------------------------------------
  // Channel profiles

  /** A channel keeps its slot for life; its secret stays only while the endpoint's origin does. The
      caller may veto the save before it is written. */
  function SaveChannel(s: Settings, input: Profile, secret: SecretInput, newSlot: Slot, vetoed: bool): Option<Settings> {
    var current := Find(s.profiles, input.id);
    if current.None? && |s.profiles| >= PROFILE_LIMIT then None
    else if current.Some? && current.value.slot.Some? && current.value.slot.value in s.credentials && secret.Keep?
            && current.value.origin != input.origin then None
    else if vetoed || newSlot in s.credentials || newSlot in s.suppliedFor || Referenced(s.profiles, newSlot) then None
    else
      var slot := if current.Some? && current.value.slot.Some? then current.value.slot.value else newSlot;
      var profiles := Without(s.profiles, input.id) + [input.(slot := Some(slot))];
      var all := match secret
        case Keep => s.credentials
        case Remove => s.credentials - {slot}
        case Supply(text) => s.credentials[slot := text];
      PersistChannels(s, profiles, all, if secret.Supply? then s.suppliedFor[slot := input.origin] else s.suppliedFor)
  }

  function PersistChannels(s: Settings, profiles: seq<Profile>, all: map<Slot, string>, suppliedFor: map<Slot, string>): Option<Settings> {
    var credentials := Kept(profiles, all);
    if !ChannelFileReads(profiles, credentials) then None else Some(Settings(profiles, credentials, suppliedFor))
  }

  function Edited(ps: seq<Profile>, id: Id, settings: string): (r: seq<Profile>)
    ensures |r| == |ps|
    ensures forall i :: 0 <= i < |ps| ==> r[i] == if ps[i].id == id then ps[i].(settings := settings) else ps[i]
  {
    seq(|ps|, i requires 0 <= i < |ps| => if ps[i].id == id then ps[i].(settings := settings) else ps[i])
  }

  /** Auto-connect, model override and group access touch neither endpoint nor slot. */
  function EditChannel(s: Settings, id: Id, settings: string): Option<Settings> {
    if Find(s.profiles, id).None? then None
    else PersistChannels(s, Edited(s.profiles, id, settings), s.credentials, s.suppliedFor)
  }

  // ---------------------------------------------------------------------------------------
  // Histories

  datatype Event =
    | ESaveModel(input: Profile, secret: SecretInput, newSlot: Slot)
    | ESaveChannel(input: Profile, secret: SecretInput, newSlot: Slot, vetoed: bool)
    | EEditChannel(id: Id, settings: string)

  predicate ForModels(e: Event) { e.ESaveModel? }

  /** A refused change leaves the settings as they were. */
  function Step(s: Settings, e: Event): Settings {
    var r := match e
      case ESaveModel(input, secret, slot) => SaveModel(s, input, secret, slot)
      case ESaveChannel(input, secret, slot, vetoed) => SaveChannel(s, input, secret, slot, vetoed)
      case EEditChannel(id, settings) => EditChannel(s, id, settings);
    if r.None? then s else r.value
  }

  function After(s: Settings, es: seq<Event>): Settings
    decreases |es|
  {
    if es == [] then s else After(Step(s, es[0]), es[1..])
  }
}
