/** The two stores: their settings as a field that each serialized change replaces as a whole. */
module ProfilesStores {
  import opened Options
  import opened ProfilesModel

  method FindProfile(ps: seq<Profile>, id: Id) returns (found: Option<Profile>)
    ensures found == Find(ps, id)
  {
    for i := 0 to |ps|
      invariant Find(ps[i..], id) == Find(ps, id)
    {
      assert ps[i..][0] == ps[i] && ps[i..][1..] == ps[i + 1..];
      if ps[i].id == id {
        return Some(ps[i]);
      }
    }
    found := None;
  }

  method FilterOut(ps: seq<Profile>, id: Id) returns (rest: seq<Profile>)
    ensures rest == Without(ps, id)
  {
    rest := [];
    for i := 0 to |ps|
      invariant rest + Without(ps[i..], id) == Without(ps, id)
    {
      assert ps[i..][0] == ps[i] && ps[i..][1..] == ps[i + 1..];
      if ps[i].id != id {
        assert rest + ([ps[i]] + Without(ps[i + 1..], id)) == (rest + [ps[i]]) + Without(ps[i + 1..], id);
        rest := rest + [ps[i]];
      }
    }
  }

  class ModelProfileStore {
    var settings: Settings

    /** A file that is not there is an empty one. */
    constructor (file: Option<Settings>)
      requires file.Some? ==> ModelFileReads(file.value.profiles, file.value.credentials)
      ensures settings == if file.Some? then file.value else EMPTY
    {
      settings := if file.Some? then file.value else EMPTY;
    }

    method Resolve(id: Id) returns (profile: Option<Profile>, apiKey: Option<string>)
      ensures profile == Find(settings.profiles, id)
      ensures apiKey == if profile.Some? && profile.value.slot.Some? && profile.value.slot.value in settings.credentials
                        then Some(settings.credentials[profile.value.slot.value]) else None
    {
      profile := FindProfile(settings.profiles, id);
      apiKey := None;
      if profile.Some? && profile.value.slot.Some? && profile.value.slot.value in settings.credentials {
        apiKey := Some(settings.credentials[profile.value.slot.value]);
      }
    }

    /** `written` is whether the new file reached the disk; memory follows only then. */
    method Save(input: Profile, secret: SecretInput, newSlot: Slot, written: bool) returns (ok: bool)
      modifies this
      ensures ok <==> written && SaveModel(old(settings), input, secret, newSlot).Some?
      ensures settings == if ok then SaveModel(old(settings), input, secret, newSlot).value else old(settings)
    {
      if newSlot in settings.credentials || newSlot in settings.suppliedFor {
        return false;
      }
      var current := FindProfile(settings.profiles, input.id);
      if current.None? && |settings.profiles| >= PROFILE_LIMIT {
        return false;
      }
      if current.Some? && current.value.slot.Some? && secret.Keep? && current.value.origin != input.origin {
        return false;
      }
      var credentials, suppliedFor := settings.credentials, settings.suppliedFor;
      var profile := input.(slot := if current.Some? then current.value.slot else None);
      match secret {
        case Keep =>
        case Remove =>
          profile := profile.(slot := None);
        case Supply(text) =>
          credentials, suppliedFor := credentials[newSlot := text], suppliedFor[newSlot := input.origin];
          profile := profile.(slot := Some(newSlot));
      }
      var rest := FilterOut(settings.profiles, input.id);
      var profiles := rest + [profile];
      credentials := Kept(profiles, credentials);
      if !ModelFileReads(profiles, credentials) || !written {
        return false;
      }
      settings := Settings(profiles, credentials, suppliedFor);
      ok := true;
    }
  }

  class ChannelProfileStore {
    var settings: Settings

    constructor (file: Option<Settings>)
      requires file.Some? ==> ChannelFileReads(file.value.profiles, file.value.credentials)
      ensures settings == if file.Some? then file.value else EMPTY
    {
      settings := if file.Some? then file.value else EMPTY;
    }

    method Persist(profiles: seq<Profile>, credentials: map<Slot, string>, suppliedFor: map<Slot, string>, written: bool)
      returns (ok: bool)
      modifies this
      ensures ok <==> written && PersistChannels(old(settings), profiles, credentials, suppliedFor).Some?
      ensures settings == if ok then PersistChannels(old(settings), profiles, credentials, suppliedFor).value else old(settings)
    {
      var kept := Kept(profiles, credentials);
      if !ChannelFileReads(profiles, kept) || !written {
        return false;
      }
      settings := Settings(profiles, kept, suppliedFor);
      ok := true;
    }

    method Save(input: Profile, secret: SecretInput, newSlot: Slot, vetoed: bool, written: bool) returns (ok: bool)
      modifies this
      ensures ok <==> written && SaveChannel(old(settings), input, secret, newSlot, vetoed).Some?
      ensures settings == if ok then SaveChannel(old(settings), input, secret, newSlot, vetoed).value else old(settings)
    {
      if newSlot in settings.credentials || newSlot in settings.suppliedFor || Referenced(settings.profiles, newSlot) {
        return false;
      }
      var current := FindProfile(settings.profiles, input.id);
      if current.None? && |settings.profiles| >= PROFILE_LIMIT {
        return false;
      }
      if current.Some? && current.value.slot.Some? && current.value.slot.value in settings.credentials && secret.Keep?
         && current.value.origin != input.origin {
        return false;
      }
      if vetoed {
        return false;
      }
      var credentials, suppliedFor := settings.credentials, settings.suppliedFor;
      var slot := if current.Some? && current.value.slot.Some? then current.value.slot.value else newSlot;
      match secret {
        case Keep =>
        case Remove =>
          credentials := credentials - {slot};
        case Supply(text) =>
          credentials, suppliedFor := credentials[slot := text], suppliedFor[slot := input.origin];
      }
      var rest := FilterOut(settings.profiles, input.id);
      ok := Persist(rest + [input.(slot := Some(slot))], credentials, suppliedFor, written);
    }

    /** Auto-connect, model override and group access. */
    method Edit(id: Id, value: string, written: bool) returns (ok: bool)
      modifies this
      ensures ok <==> written && EditChannel(old(settings), id, value).Some?
      ensures settings == if ok then EditChannel(old(settings), id, value).value else old(settings)
    {
      var current := FindProfile(settings.profiles, id);
      if current.None? {
        return false;
      }
      var channels: seq<Profile> := [];
      for i := 0 to |settings.profiles|
        invariant settings == old(settings)
        invariant |channels| == i && channels == Edited(settings.profiles, id, value)[..i]
      {
        var channel := settings.profiles[i];
        if channel.id == id {
          channel := channel.(settings := value);
        }
        channels := channels + [channel];
      }
      assert channels == Edited(settings.profiles, id, value);
      ok := Persist(channels, settings.credentials, settings.suppliedFor, written);
    }
  }
}
