/** Exactly when a save goes through, and everything that is stored after it. */
module ProfilesRows {
  import opened Options
  import opened ProfilesModel
  import opened ProfilesOrigins

  // ---------------------------------------------------------------------------------------
  // The list

  /** The saved profile leaves its place and goes to the end; one that is new goes there at once. */
  ghost predicate MovesToTheEnd(ps: seq<Profile>, qs: seq<Profile>, p: Profile) {
    || (qs == ps + [p] && forall q :: q in ps ==> q.id != p.id)
    || (exists i :: 0 <= i < |ps| && ps[i].id == p.id && qs == ps[..i] + ps[i + 1..] + [p])
  }

  lemma {:induction false} NothingToTakeOut(ps: seq<Profile>, id: Id)
    requires forall q :: q in ps ==> q.id != id
    ensures Without(ps, id) == ps
    decreases |ps|
  {
    if ps != [] {
      NothingToTakeOut(ps[1..], id);
    }
  }

  lemma {:induction false} TakesOutOne(ps: seq<Profile>, id: Id, i: nat)
    requires DistinctIds(ps) && i < |ps| && ps[i].id == id
    ensures Without(ps, id) == ps[..i] + ps[i + 1..]
    decreases |ps|
  {
    if i == 0 {
      forall q | q in ps[1..] ensures q.id != id {
        var j :| 0 <= j < |ps[1..]| && ps[1..][j] == q;
        assert ps[0].id != ps[j + 1].id;
      }
      NothingToTakeOut(ps[1..], id);
      assert ps[..0] + ps[0 + 1..] == ps[1..];
    } else {
      assert ps[0].id != ps[i].id;
      var rest := ps[1..];
      TakesOutOne(rest, id, i - 1);
      HeadStays(ps, i);
    }
  }

  lemma HeadStays(ps: seq<Profile>, i: nat)
    requires 0 < i < |ps|
    ensures [ps[0]] + (ps[1..][..i - 1] + ps[1..][(i - 1) + 1..]) == ps[..i] + ps[i + 1..]
  {
    assert ps[1..][..i - 1] == ps[1..i] && ps[1..][(i - 1) + 1..] == ps[i + 1..];
    assert [ps[0]] + ps[1..i] == ps[..i];
  }

  lemma SavedMovesToTheEnd(ps: seq<Profile>, p: Profile)
    requires DistinctIds(ps)
    ensures MovesToTheEnd(ps, Without(ps, p.id) + [p], p)
    ensures |Without(ps, p.id)| == if Find(ps, p.id).Some? then |ps| - 1 else |ps|
  {
    if Find(ps, p.id).Some? {
      var i :| 0 <= i < |ps| && ps[i] == Find(ps, p.id).value;
      TakesOutOne(ps, p.id, i);
    } else {
      NothingToTakeOut(ps, p.id);
    }
  }

  // ---------------------------------------------------------------------------------------
  // The secrets

  /** Exactly the secrets that some profile names are stored, each as it was or as just supplied. */
  ghost predicate StoresExactly(ps: seq<Profile>, after: map<Slot, string>, before: map<Slot, string>, slot: Option<Slot>,
                                secret: SecretInput) {
    forall x ::
      && (x in after <==> (exists q :: q in ps && q.slot == Some(x))
                          && if slot == Some(x) && !secret.Keep? then secret.Supply? else x in before)
      && (x in after ==> after[x] == if slot == Some(x) && secret.Supply? then secret.secret else before[x])
  }

  /** One secret per profile at most. */
  lemma {:induction false} KeptIsNoMore(ps: seq<Profile>, all: map<Slot, string>)
    ensures |Kept(ps, all)| <= |ps|
    decreases |ps|
  {
    var kept := Kept(ps, all);
    assert |kept| == |kept.Keys|;
    if ps == [] {
      assert kept.Keys == {};
    } else {
      var rest := Kept(ps[1..], all);
      KeptIsNoMore(ps[1..], all);
      assert |rest| == |rest.Keys|;
      var first := if ps[0].slot.Some? then {ps[0].slot.value} else {};
      assert |first| <= 1;
      forall slot | slot in kept ensures slot in rest.Keys + first {
        var p :| p in ps && p.slot == Some(slot);
        if p != ps[0] {
          assert p in ps[1..];
        }
      }
      assert kept.Keys <= rest.Keys + first;
      SubsetIsSmaller(kept.Keys, rest.Keys + first);
      assert |rest.Keys + first| <= |rest.Keys| + |first|;
    }
  }

  lemma {:induction false} SubsetIsSmaller(a: set<Slot>, b: set<Slot>)
    requires a <= b
    ensures |a| <= |b|
    decreases |a|
  {
    if a != {} {
      var x :| x in a;
      SubsetIsSmaller(a - {x}, b - {x});
    }
  }

  // ---------------------------------------------------------------------------------------
  // Model profiles

  ghost predicate Known(s: Settings, id: Id) { exists p :: p in s.profiles && p.id == id }

  /** A new profile has room; one that keeps a secret stays at the origin the secret is for. `newSlot` is fresh. */
  ghost predicate MaySaveModel(s: Settings, input: Profile, secret: SecretInput) {
    && (Known(s, input.id) || |s.profiles| < 100)
    && forall p :: p in s.profiles && p.id == input.id && p.slot.Some? && secret == Keep ==> p.origin == input.origin
  }

  /** With the slot it had, a new one, or none. */
  ghost predicate SlotGiven(s: Settings, id: Id, secret: SecretInput, newSlot: Slot, slot: Option<Slot>) {
    match secret
    case Keep => (forall p :: p in s.profiles && p.id == id ==> slot == p.slot) && (!Known(s, id) ==> slot == None)
    case Remove => slot == None
    case Supply(_) => slot == Some(newSlot)
  }

  ghost predicate Fresh(s: Settings, slot: Slot) {
    slot !in s.credentials && slot !in s.suppliedFor && forall p :: p in s.profiles ==> p.slot != Some(slot)
  }

  /** A model profile is saved if and only if there is room for it and no secret would follow it to another origin. Then
      it is last, as given, on the slot it had, a new one or none; the others are as they were, and exactly the secrets
      still named are stored. */
  lemma ModelsAreSavedExactlyWhen(s: Settings, input: Profile, secret: SecretInput, newSlot: Slot, slot: Option<Slot>)
    requires ModelFileReads(s.profiles, s.credentials) && Fresh(s, newSlot) && SlotGiven(s, input.id, secret, newSlot, slot)
    ensures var r := SaveModel(s, input, secret, newSlot);
            && (r.Some? <==> MaySaveModel(s, input, secret))
            && (r.Some? ==>
                  && MovesToTheEnd(s.profiles, r.value.profiles, input.(slot := slot))
                  && StoresExactly(r.value.profiles, r.value.credentials, s.credentials, slot, secret))
  {
    FoundIsKnown(s, input.id);
    assert slot == ModelSlot(Find(s.profiles, input.id), secret, newSlot);
    SavedMovesToTheEnd(s.profiles, input.(slot := slot));
    if MaySaveModel(s, input, secret) {
      SavedModelsRead(s, input, secret, newSlot, slot);
    }
  }

  /** What was written can be read back. */
  lemma SavedModelsRead(s: Settings, input: Profile, secret: SecretInput, newSlot: Slot, slot: Option<Slot>)
    requires ModelFileReads(s.profiles, s.credentials) && slot == ModelSlot(Find(s.profiles, input.id), secret, newSlot)
    requires Known(s, input.id) || |s.profiles| < 100
    ensures var profiles := Without(s.profiles, input.id) + [input.(slot := slot)];
            ModelFileReads(profiles, Kept(profiles, if secret.Supply? then s.credentials[newSlot := secret.secret] else s.credentials))
  {
    var profiles := Without(s.profiles, input.id) + [input.(slot := slot)];
    var all := if secret.Supply? then s.credentials[newSlot := secret.secret] else s.credentials;
    SavedMovesToTheEnd(s.profiles, input);
    WithoutKeepsIds(s.profiles, input.id);
    KeptIsNoMore(profiles, all);
    forall i | 0 <= i < |Without(s.profiles, input.id)| ensures Without(s.profiles, input.id)[i].id != input.id {
      assert Without(s.profiles, input.id)[i] in Without(s.profiles, input.id);
    }
    forall p | p in profiles && p.slot.Some? ensures p.slot.value in all {
      if p in Without(s.profiles, input.id) {
        assert p in s.profiles;
      }
    }
  }

  // ---------------------------------------------------------------------------------------
  // Channels

  ghost predicate MaySaveChannel(s: Settings, input: Profile, secret: SecretInput, vetoed: bool) {
    && !vetoed && (Known(s, input.id) || |s.profiles| < 100)
    && forall p :: p in s.profiles && p.id == input.id && p.slot.Some? && p.slot.value in s.credentials && secret == Keep ==>
                     p.origin == input.origin
  }

  /** A channel's slot is its own for life. */
  ghost predicate OwnSlot(s: Settings, id: Id, newSlot: Slot, slot: Slot) {
    (forall p :: p in s.profiles && p.id == id ==> p.slot == Some(slot)) && (!Known(s, id) ==> slot == newSlot)
  }

  /** A channel is saved if and only if nobody objects, there is room for it, and no secret would follow it to another
      origin. Then it is last, as given, on the slot it has for life; the others are as they were, and exactly the
      secrets still named are stored. */
  lemma ChannelsAreSavedExactlyWhen(s: Settings, input: Profile, secret: SecretInput, newSlot: Slot, vetoed: bool, slot: Slot)
    requires ChannelFileReads(s.profiles, s.credentials) && Fresh(s, newSlot) && OwnSlot(s, input.id, newSlot, slot)
    ensures var r := SaveChannel(s, input, secret, newSlot, vetoed);
            && (r.Some? <==> MaySaveChannel(s, input, secret, vetoed))
            && (r.Some? ==>
                  && MovesToTheEnd(s.profiles, r.value.profiles, input.(slot := Some(slot)))
                  && StoresExactly(r.value.profiles, r.value.credentials, s.credentials, Some(slot), secret))
  {
    FoundIsKnown(s, input.id);
    assert slot == if Find(s.profiles, input.id).Some? then Find(s.profiles, input.id).value.slot.value else newSlot;
    var saved := input.(slot := Some(slot));
    var profiles, all := Without(s.profiles, input.id) + [saved], Applied(s.credentials, slot, secret);
    SavedMovesToTheEnd(s.profiles, saved);
    SavedChannelsRead(s, saved, newSlot, slot, all);
    AppliedIsStored(profiles, s.credentials, slot, secret);
    var r := SaveChannel(s, input, secret, newSlot, vetoed);
    assert !Referenced(s.profiles, newSlot);
    if MaySaveChannel(s, input, secret, vetoed) {
      assert r.Some? && r.value.profiles == profiles && r.value.credentials == Kept(profiles, all);
    }
  }

  lemma FoundIsKnown(s: Settings, id: Id)
    requires DistinctIds(s.profiles)
    ensures Known(s, id) <==> Find(s.profiles, id).Some?
    ensures forall p :: p in s.profiles && p.id == id ==> Find(s.profiles, id) == Some(p)
  {
    var current := Find(s.profiles, id);
    if current.Some? {
      forall p | p in s.profiles && p.id == id ensures p == current.value {
        SameProfile(s.profiles, p, current.value);
      }
    }
  }

  lemma AppliedIsStored(ps: seq<Profile>, before: map<Slot, string>, slot: Slot, secret: SecretInput)
    ensures StoresExactly(ps, Kept(ps, Applied(before, slot, secret)), before, Some(slot), secret)
  {
  }

  lemma SavedChannelsRead(s: Settings, saved: Profile, newSlot: Slot, slot: Slot, all: map<Slot, string>)
    requires ChannelFileReads(s.profiles, s.credentials) && Fresh(s, newSlot) && OwnSlot(s, saved.id, newSlot, slot)
    requires saved.slot == Some(slot)
    ensures var profiles := Without(s.profiles, saved.id) + [saved];
            Known(s, saved.id) || |s.profiles| < 100 ==> ChannelFileReads(profiles, Kept(profiles, all))
  {
    var profiles := Without(s.profiles, saved.id) + [saved];
    SavedMovesToTheEnd(s.profiles, saved);
    WithoutKeepsApart(s.profiles, saved.id);
    KeptIsNoMore(profiles, all);
    forall q | q in Without(s.profiles, saved.id) ensures q.slot != saved.slot {
      if Known(s, saved.id) {
        var p :| p in s.profiles && p.id == saved.id;
        SameProfile(s.profiles, p, q);
      }
    }
    AppendKeepsApart(Without(s.profiles, saved.id), saved);
  }

  /** A setter reaches one channel that is known and changes nothing of it but what it sets. */
  lemma ChannelsAreSetExactlyWhen(s: Settings, id: Id, settings: string)
    requires ChannelFileReads(s.profiles, s.credentials)
    ensures var r := EditChannel(s, id, settings);
            && (r.Some? <==> Known(s, id))
            && (r.Some? ==>
                  && |r.value.profiles| == |s.profiles|
                  && (forall i :: 0 <= i < |s.profiles| ==>
                        r.value.profiles[i] == if s.profiles[i].id == id then s.profiles[i].(settings := settings) else s.profiles[i])
                  && StoresExactly(r.value.profiles, r.value.credentials, s.credentials, None, Keep))
  {
    var profiles := Edited(s.profiles, id, settings);
    KeptIsNoMore(profiles, s.credentials);
    forall p | p in profiles ensures p.slot.Some? {
      var i :| 0 <= i < |profiles| && profiles[i] == p;
      assert s.profiles[i] in s.profiles;
    }
    FoundIsKnown(s, id);
  }
}
