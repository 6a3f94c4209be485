/** The loop of `profileMap`, proved against the specification `Profiles.ProfileMapOf`. */
module ProfileMapBuilder {
  import opened Wrappers
  import opened Errors
  import opened Collections
  import opened Settings
  import opened Collaborators
  import opened Profiles

  /** `profileMap`: visits the profile IDs in order and puts a new profile for each when a factory is registered. */
  method BuildProfileMap(definition: ProfileDefinition, ids: seq<string>, factory: Factory)
    returns (r: Result<LinkedMap<string, Profile>, Exception>)
    ensures r == ProfileMapOf(definition, ids, factory)
  {
    var returnMap := EmptyLinkedMap();
    var i := 0;
    assert ids[..i] == [];
    while i < |ids|
      invariant i <= |ids|
      invariant ProfileMapOf(definition, ids[..i], factory) == Success(returnMap)
    {
      ProfileMapVisit(definition, ids, factory, i, returnMap);
      if factory.present {
        var newProfile := NewProfileForID(definition, ids[i], factory);
        if newProfile.Failure? {
          return Failure(newProfile.error);
        }
        returnMap := returnMap.Put(ids[i], newProfile.value);
      }
      i := i + 1;
    }
    assert ids[..i] == ids;
    r := Success(returnMap);
  }
}
