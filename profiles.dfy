/**
 * Building the profiles of one profile category: `newProfileForID`, the map
 * `profileMap` assembles from the category's ordered profile IDs, and the
 * enabled-only view through which the LDAP profiles are served.
 */
module Profiles {
  import opened Wrappers
  import opened Errors
  import opened Collections
  import opened Settings
  import opened Collaborators

  /** A definition's profile factory as far as the facade observes it. */
  datatype Factory = Factory(
    /** `getProfileFactoryClass().isPresent()`. */
    present: bool,
    /** Whether the factory class can be constructed reflectively. */
    instantiates: bool,
    /** `makeFromStoredConfiguration`. */
    make: (ProfileDefinition, string) -> Result<Profile, Exception>)

  /** A factory that is registered and constructible makes every profile; any other is an illegal state. */
  function NewProfileForID(definition: ProfileDefinition, profileID: string, factory: Factory): (r: Result<Profile, Exception>)
    ensures factory.present && factory.instantiates ==> r == factory.make(definition, profileID)
    ensures factory.present && !factory.instantiates ==>
      r == Failure(IllegalStateException("unable to create profile instance for " + definition.Name()))
    ensures !factory.present ==>
      r == Failure(IllegalStateException(
        "unable to create profile instance for " + definition.Name() + " ( profile factory class not defined )"))
  {
    if factory.present then
      if factory.instantiates then factory.make(definition, profileID)
      else Failure(IllegalStateException("unable to create profile instance for " + definition.Name()))
    else
      Failure(IllegalStateException(
        "unable to create profile instance for " + definition.Name() + " ( profile factory class not defined )"))
  }

  /**
   * The `LinkedHashMap` `profileMap` returns after visiting `ids` in order:
   * each ID is put with its new profile when a factory is registered, and
   * the first exception aborts the whole build.
   */
  function ProfileMapOf(definition: ProfileDefinition, ids: seq<string>, factory: Factory): (r: Result<LinkedMap<string, Profile>, Exception>)
    ensures r.Success? ==> r.value.Valid()
    decreases |ids|
  {
    if ids == [] then Success(EmptyLinkedMap())
    else
      var prefix := ProfileMapOf(definition, ids[..|ids| - 1], factory);
      if prefix.Failure? || !factory.present then prefix
      else
        var id := ids[|ids| - 1];
        match NewProfileForID(definition, id, factory)
        case Failure(e) => Failure(e)
        case Success(p) => Success(prefix.value.Put(id, p))
  }

  /** Without a registered factory the map is empty and nothing is ever constructed. */
  lemma {:induction false} ProfileMapWithoutFactory(definition: ProfileDefinition, ids: seq<string>, factory: Factory)
    requires !factory.present
    ensures ProfileMapOf(definition, ids, factory) == Success(EmptyLinkedMap())
    decreases |ids|
  {
    if ids != [] {
      ProfileMapWithoutFactory(definition, ids[..|ids| - 1], factory);
    }
  }

  /** The build succeeds exactly when there is nothing to build or every profile is made. */
  lemma {:induction false} ProfileMapSucceeds(definition: ProfileDefinition, ids: seq<string>, factory: Factory)
    ensures ProfileMapOf(definition, ids, factory).Success? <==>
      || !factory.present
      || ids == []
      || (factory.instantiates && forall i :: 0 <= i < |ids| ==> factory.make(definition, ids[i]).Success?)
    decreases |ids|
  {
    if ids != [] && factory.present {
      var p := ids[..|ids| - 1];
      var id := ids[|ids| - 1];
      ProfileMapSucceeds(definition, p, factory);
      var all := forall i :: 0 <= i < |ids| ==> factory.make(definition, ids[i]).Success?;
      var allPrefix := forall i :: 0 <= i < |p| ==> factory.make(definition, p[i]).Success?;
      assert all <==> allPrefix && factory.make(definition, id).Success? by {
        assert forall i :: 0 <= i < |p| ==> p[i] == ids[i];
      }
      if !factory.instantiates {
        ProfileMapUninstantiable(definition, ids, factory);
      }
    } else if !factory.present {
      ProfileMapWithoutFactory(definition, ids, factory);
    }
  }

  /** With a registered factory, the keys are the profile IDs, each once, in first-occurrence order. */
  lemma {:induction false} ProfileMapKeys(definition: ProfileDefinition, ids: seq<string>, factory: Factory)
    requires factory.present && ProfileMapOf(definition, ids, factory).Success?
    ensures ProfileMapOf(definition, ids, factory).value.order == Distinct(ids)
    decreases |ids|
  {
    if ids != [] {
      var p := ids[..|ids| - 1];
      var id := ids[|ids| - 1];
      assert ids == p + [id];
      ProfileMapKeys(definition, p, factory);
      var prefix := ProfileMapOf(definition, p, factory).value;
      PutOrder(prefix, p, id, NewProfileForID(definition, id, factory).value);
    }
  }

  /** Every profile ID maps to the profile its factory makes for it. */
  lemma {:induction false} ProfileMapValues(definition: ProfileDefinition, ids: seq<string>, factory: Factory, i: nat)
    requires factory.present && ProfileMapOf(definition, ids, factory).Success? && i < |ids|
    ensures factory.make(definition, ids[i]).Success?
    ensures ProfileMapOf(definition, ids, factory).value.Get(ids[i]) == Some(factory.make(definition, ids[i]).value)
    decreases |ids|
  {
    var p := ids[..|ids| - 1];
    var id := ids[|ids| - 1];
    if i < |ids| - 1 && id != ids[i] {
      ProfileMapValues(definition, p, factory, i);
    }
  }

  /** The first profile whose construction throws determines the exception of the whole build. */
  lemma {:induction false} ProfileMapFirstFailure(definition: ProfileDefinition, ids: seq<string>, factory: Factory, k: nat)
    requires factory.present && factory.instantiates && k < |ids|
    requires factory.make(definition, ids[k]).Failure?
    requires forall j :: 0 <= j < k ==> factory.make(definition, ids[j]).Success?
    ensures ProfileMapOf(definition, ids, factory) == Failure(factory.make(definition, ids[k]).error)
    decreases |ids|
  {
    var p := ids[..|ids| - 1];
    if k < |ids| - 1 {
      assert forall j :: 0 <= j <= k ==> p[j] == ids[j];
      ProfileMapFirstFailure(definition, p, factory, k);
    } else {
      assert forall j :: 0 <= j < |p| ==> p[j] == ids[j];
      ProfileMapSucceeds(definition, p, factory);
    }
  }

  /** One visit of the loop: from the map built for `ids[..i]`, the build of `ids[..i + 1]`, or of all of `ids` once it fails. */
  lemma ProfileMapVisit(definition: ProfileDefinition, ids: seq<string>, factory: Factory, i: nat, built: LinkedMap<string, Profile>)
    requires i < |ids| && ProfileMapOf(definition, ids[..i], factory) == Success(built)
    ensures !factory.present ==> ProfileMapOf(definition, ids[..i + 1], factory) == Success(built)
    ensures factory.present && NewProfileForID(definition, ids[i], factory).Failure? ==>
      ProfileMapOf(definition, ids, factory) == Failure(NewProfileForID(definition, ids[i], factory).error)
    ensures factory.present && NewProfileForID(definition, ids[i], factory).Success? ==>
      ProfileMapOf(definition, ids[..i + 1], factory) == Success(built.Put(ids[i], NewProfileForID(definition, ids[i], factory).value))
  {
    var visited := ids[..i + 1];
    assert visited[..|visited| - 1] == ids[..i] && visited[|visited| - 1] == ids[i];
    if factory.present && NewProfileForID(definition, ids[i], factory).Failure? {
      ProfileMapFailurePersists(definition, ids, factory, i + 1);
    }
  }

  /** Once a prefix of the IDs fails, visiting the remaining IDs keeps that failure. */
  lemma {:induction false} ProfileMapFailurePersists(definition: ProfileDefinition, ids: seq<string>, factory: Factory, k: nat)
    requires k <= |ids| && ProfileMapOf(definition, ids[..k], factory).Failure?
    ensures ProfileMapOf(definition, ids, factory) == ProfileMapOf(definition, ids[..k], factory)
    decreases |ids|
  {
    if k < |ids| {
      var p := ids[..|ids| - 1];
      assert p[..k] == ids[..k];
      ProfileMapFailurePersists(definition, p, factory, k);
    } else {
      assert ids[..k] == ids;
    }
  }

  /** A registered factory that cannot be constructed fails every non-empty build with an illegal state. */
  lemma {:induction false} ProfileMapUninstantiable(definition: ProfileDefinition, ids: seq<string>, factory: Factory)
    requires factory.present && !factory.instantiates && ids != []
    ensures ProfileMapOf(definition, ids, factory) ==
      Failure(IllegalStateException("unable to create profile instance for " + definition.Name()))
    decreases |ids|
  {
    var p := ids[..|ids| - 1];
    if p != [] {
      ProfileMapUninstantiable(definition, p, factory);
    }
  }

  /** The entries of `profiles` whose profile is enabled. */
  function EnabledProfiles(profiles: map<string, Profile>): (r: map<string, Profile>)
    ensures forall id :: id in r <==> id in profiles && profiles[id].enabled
    ensures forall id :: id in r ==> r[id] == profiles[id]
  {
    map id | id in profiles && profiles[id].enabled :: profiles[id]
  }

  /** Filtering again changes nothing: every profile in the view is enabled. */
  lemma EnabledProfilesIdempotent(profiles: map<string, Profile>)
    ensures EnabledProfiles(EnabledProfiles(profiles)) == EnabledProfiles(profiles)
    ensures forall p :: p in EnabledProfiles(profiles).Values ==> p.enabled
  {
    var r := EnabledProfiles(profiles);
    forall p | p in r.Values
      ensures p.enabled
    {
      var id :| id in r && r[id] == p;
    }
  }
}
