/**
 * `DomainConfig`: the per-domain view of an immutable configuration store.
 * Its reads are pure functions of the store; its lazy suppliers and its
 * `DataCache` maps are fields updated in place, and each is tied by the
 * class invariant to the value it memoises.
 */
module DomainConfiguration {
  import opened Wrappers
  import opened Errors
  import opened Collections
  import opened JavaLang
  import opened Options
  import opened Settings
  import opened Collaborators
  import opened SecurityKeys
  import opened StorageLocationSettings
  import opened LocalizedText
  import opened Profiles
  import opened ProfileMapBuilder
  import opened CacheInvariants

  class DomainConfig {
    const appConfig: AppConfig
    const storedConfiguration: StoredConfiguration
    const domainID: DomainID
    const settingReader: SettingReader
    const schema: Schema
    const platform: Platform

    /** The LDAP-profiles supplier: its value once computed. */
    var ldapProfilesSupplied: Option<map<string, Profile>>
    /** The security-key supplier: its value once computed. */
    var securityKeySupplied: Option<PwmSecurityKey>
    /** The ephemeral key used while no key is configured, once generated. */
    var tempInstanceKey: Option<PwmSecurityKey>
    /** The random secret `tempInstanceKey` was made from. */
    ghost var tempInstanceSecret: RandomAlphaNumeric

    /** `DataCache.cachedPasswordPolicy`: profile, then locale, to policy. */
    var cachedPasswordPolicy: map<string, map<Locale, PwmPasswordPolicy>>
    /** `DataCache.customText`: cache key to localized map, `None` for an explicit absent entry. */
    var customText: map<string, Option<LinkedMap<Locale, string>>>
    /** `DataCache.profileCache`: one profile map per definition. */
    var profileCache: map<ProfileDefinition, LinkedMap<string, Profile>>

    /** The (bundle, key) pair each `customText` entry was computed for. */
    ghost var customTextSource: map<string, (PwmLocaleBundle, string)>
    /** Every (bundle, key) pair whose stored map has been read, in order. */
    ghost var localeBundleReads: seq<(PwmLocaleBundle, string)>
    /** Every (profile, locale) pair for which a policy has been created, in order. */
    ghost var policiesCreated: seq<(string, Locale)>
    /** Every definition whose profile map has been built, in order. */
    ghost var profileMapsBuilt: seq<ProfileDefinition>

    // ---- The store as the facade reads it ----

    /** The configured security-key setting. */
    function ConfigValue(): Option<PasswordData> {
      settingReader.readSettingAsPassword(PWM_SECURITY_KEY)
    }

    /** `readAppProperty`: the application's value of a property. */
    function ReadAppProperty(property: AppProperty): string {
      appConfig.readAppProperty(property)
    }

    /** The factory registered for a definition. */
    function FactoryOf(definition: ProfileDefinition): Factory {
      Factory(schema.profileFactoryPresent(definition), platform.factoryInstantiates(definition), platform.makeProfile)
    }

    /** What `profileMap(definition)` computes from the store. */
    function BuiltProfileMap(definition: ProfileDefinition): Result<LinkedMap<string, Profile>, Exception> {
      ProfileMapOf(definition, storedConfiguration.profileIDsForCategory(definition), FactoryOf(definition))
    }

    /** What the LDAP-profiles supplier computes: the enabled entries of the LDAP profile map. */
    function EnabledLdapProfiles(): Result<map<string, Profile>, Exception> {
      match BuiltProfileMap(LdapProfile)
      case Failure(e) => Failure(e)
      case Success(m) => Success(EnabledProfiles(m.entries))
    }

    /** What `readLocalizedBundle(bundle, keyName)` computes from the store. */
    function StoredBundle(bundle: PwmLocaleBundle, keyName: string): Option<LinkedMap<Locale, string>> {
      LocalizedBundle(storedConfiguration.readLocaleBundleMap(bundle, keyName), platform.parseLocaleString)
    }

    // ---- The class invariant ----

    /** The suppliers hold what they would compute now. */
    ghost predicate SuppliersValid()
      reads this`tempInstanceKey, this`tempInstanceSecret, this`securityKeySupplied
      reads this`ldapProfilesSupplied, this`profileCache
    {
      && (tempInstanceKey.Some? ==> platform.newSecurityKey(tempInstanceSecret) == Success(tempInstanceKey.value))
      && (securityKeySupplied.Some? ==>
            if Unconfigured(ConfigValue()) then tempInstanceKey == securityKeySupplied
            else ConfiguredSecurityKey(
                   ConfigValue().value.stringValue,
                   ReadAppProperty(SECURITY_CONFIG_MIN_SECURITY_KEY_LENGTH),
                   platform.newSecurityKey) == Success(securityKeySupplied.value))
      && (ldapProfilesSupplied.Some? ==>
            LdapProfile in profileCache && ldapProfilesSupplied.value == EnabledProfiles(profileCache[LdapProfile].entries))
    }

    /** Every cached text is the one its (bundle, key) pair has in the store, and each pair was read at most once. */
    ghost predicate TextCacheValid()
      reads this`customText, this`customTextSource, this`localeBundleReads
    {
      TextCacheMatches(customText, customTextSource, localeBundleReads,
                       storedConfiguration.readLocaleBundleMap, platform.parseLocaleString)
    }

    /** Every cached policy is the one its profile and locale create, and each was created at most once. */
    ghost predicate PolicyCacheValid()
      reads this`cachedPasswordPolicy, this`policiesCreated
    {
      PolicyCacheMatches(cachedPasswordPolicy, policiesCreated, platform.createPasswordPolicy)
    }

    /** Every cached profile map is the one its definition builds, and each was built at most once. */
    ghost predicate ProfileCacheValid()
      reads this`profileCache, this`profileMapsBuilt
    {
      && (forall definition :: definition in profileCache ==> BuiltProfileMap(definition) == Success(profileCache[definition]))
      && NoDuplicates(profileMapsBuilt)
      && (forall i :: 0 <= i < |profileMapsBuilt| ==> profileMapsBuilt[i] in profileCache)
    }

    ghost predicate Valid()
      reads this
    {
      && storedConfiguration == appConfig.storedConfiguration
      && SuppliersValid()
      && TextCacheValid()
      && PolicyCacheValid()
      && ProfileCacheValid()
    }

    twostate predicate SuppliersUnchanged()
      reads this
    {
      unchanged(this`ldapProfilesSupplied, this`securityKeySupplied, this`tempInstanceKey, this`tempInstanceSecret)
    }

    twostate predicate TextCacheUnchanged()
      reads this
    {
      unchanged(this`customText, this`customTextSource, this`localeBundleReads)
    }

    twostate predicate PolicyCacheUnchanged()
      reads this
    {
      unchanged(this`cachedPasswordPolicy, this`policiesCreated)
    }

    twostate predicate ProfileCacheUnchanged()
      reads this
    {
      unchanged(this`profileCache, this`profileMapsBuilt)
    }

    /** A configuration over the application's store, with empty caches and nothing supplied yet. */
    constructor (appConfig: AppConfig, domainID: DomainID, settingReader: SettingReader, schema: Schema, platform: Platform)
      ensures Valid()
      ensures this.appConfig == appConfig && this.storedConfiguration == appConfig.storedConfiguration
      ensures this.domainID == domainID && this.settingReader == settingReader
      ensures this.schema == schema && this.platform == platform
      ensures ldapProfilesSupplied == None && securityKeySupplied == None && tempInstanceKey == None
      ensures cachedPasswordPolicy == map[] && customText == map[] && profileCache == map[]
      ensures localeBundleReads == [] && policiesCreated == [] && profileMapsBuilt == []
    {
      this.appConfig := appConfig;
      this.storedConfiguration := appConfig.storedConfiguration;
      this.domainID := domainID;
      this.settingReader := settingReader;
      this.schema := schema;
      this.platform := platform;
      ldapProfilesSupplied := None;
      securityKeySupplied := None;
      tempInstanceKey := None;
      cachedPasswordPolicy := map[];
      customText := map[];
      profileCache := map[];
      customTextSource := map[];
      localeBundleReads := [];
      policiesCreated := [];
      profileMapsBuilt := [];
    }

    // ---- The security key ----

    /**
     * `getSecurityKey`. `random` is what `PwmRandom` would return; it is used
     * only when no key is configured and no ephemeral key exists yet. A
     * success is memoised; a failure leaves the supplier empty.
     */
    method GetSecurityKey(random: RandomAlphaNumeric) returns (r: Result<PwmSecurityKey, Exception>)
      requires Valid()
      modifies this
      ensures Valid()
      ensures old(securityKeySupplied).Some? ==> r == Success(old(securityKeySupplied).value)
      ensures old(securityKeySupplied).None? && !Unconfigured(ConfigValue()) ==>
        r == ConfiguredSecurityKey(
               ConfigValue().value.stringValue,
               ReadAppProperty(SECURITY_CONFIG_MIN_SECURITY_KEY_LENGTH),
               platform.newSecurityKey)
      ensures old(securityKeySupplied).None? && Unconfigured(ConfigValue()) ==>
        r == (if old(tempInstanceKey).Some? then Success(old(tempInstanceKey).value) else platform.newSecurityKey(random))
      ensures securityKeySupplied == (if r.Success? then Some(r.value) else None)
      ensures old(tempInstanceKey).Some? ==> tempInstanceKey == old(tempInstanceKey) && tempInstanceSecret == old(tempInstanceSecret)
      ensures old(tempInstanceKey).None? ==>
        if old(securityKeySupplied).None? && Unconfigured(ConfigValue()) && r.Success?
        then tempInstanceKey == Some(r.value) && tempInstanceSecret == random
        else tempInstanceKey == None && tempInstanceSecret == old(tempInstanceSecret)
      ensures ldapProfilesSupplied == old(ldapProfilesSupplied)
      ensures TextCacheUnchanged() && PolicyCacheUnchanged() && ProfileCacheUnchanged()
    {
      if securityKeySupplied.Some? {
        return Success(securityKeySupplied.value);
      }
      var configValue := ConfigValue();
      if Unconfigured(configValue) {
        if tempInstanceKey.None? {
          var created := platform.newSecurityKey(random);
          if created.Failure? {
            return created;
          }
          tempInstanceKey := Some(created.value);
          tempInstanceSecret := random;
        }
        r := Success(tempInstanceKey.value);
      } else {
        r := ConfiguredSecurityKey(
          configValue.value.stringValue,
          ReadAppProperty(SECURITY_CONFIG_MIN_SECURITY_KEY_LENGTH),
          platform.newSecurityKey);
      }
      if r.Success? {
        securityKeySupplied := Some(r.value);
      }
    }

    /**
     * Two calls in a row: once a key has been returned, every later call
     * returns the same key, whatever the random source yields; with a
     * configured key even a failure repeats unchanged.
     */
    method SecurityKeyIsStable(random1: RandomAlphaNumeric, random2: RandomAlphaNumeric)
      returns (first: Result<PwmSecurityKey, Exception>, second: Result<PwmSecurityKey, Exception>)
      requires Valid()
      modifies this
      ensures Valid()
      ensures first.Success? ==> second == first
      ensures !Unconfigured(ConfigValue()) ==> second == first
      ensures old(tempInstanceKey).Some? ==> tempInstanceKey == old(tempInstanceKey)
      ensures old(tempInstanceKey).None? ==>
        tempInstanceKey ==
          if old(securityKeySupplied).None? && Unconfigured(ConfigValue()) then
            (if first.Success? then Some(first.value) else if second.Success? then Some(second.value) else None)
          else None
      ensures securityKeySupplied == (if second.Success? then Some(second.value) else None)
      ensures ldapProfilesSupplied == old(ldapProfilesSupplied)
      ensures TextCacheUnchanged() && PolicyCacheUnchanged() && ProfileCacheUnchanged()
    {
      first := GetSecurityKey(random1);
      second := GetSecurityKey(random2);
    }

    // ---- Profiles ----

    /** `getProfileMap`: the definition's profile map, built and copied on the first successful call and cached. */
    method GetProfileMap(definition: ProfileDefinition) returns (r: Result<LinkedMap<string, Profile>, Exception>)
      requires Valid()
      modifies this
      ensures Valid()
      ensures r == BuiltProfileMap(definition)
      ensures definition in old(profileCache) ==> r == Success(old(profileCache)[definition])
      ensures profileCache == if r.Success? then old(profileCache)[definition := r.value] else old(profileCache)
      ensures profileMapsBuilt ==
        if definition in old(profileCache) || r.Failure? then old(profileMapsBuilt) else old(profileMapsBuilt) + [definition]
      ensures SuppliersUnchanged() && TextCacheUnchanged() && PolicyCacheUnchanged()
    {
      if definition !in profileCache {
        r := LoadProfileMap(definition);
        return;
      }
      r := Success(profileCache[definition]);
    }

    /** The cache-miss path of `getProfileMap`: builds the map, and caches a copy when the build succeeds. */
    method LoadProfileMap(definition: ProfileDefinition) returns (r: Result<LinkedMap<string, Profile>, Exception>)
      requires Valid() && definition !in profileCache
      modifies this
      ensures Valid()
      ensures r == BuiltProfileMap(definition)
      ensures r.Success? ==> profileCache == old(profileCache)[definition := r.value] && profileMapsBuilt == old(profileMapsBuilt) + [definition]
      ensures r.Failure? ==> ProfileCacheUnchanged()
      ensures SuppliersUnchanged() && TextCacheUnchanged() && PolicyCacheUnchanged()
    {
      var built := BuildProfileMap(definition, storedConfiguration.profileIDsForCategory(definition), FactoryOf(definition));
      if built.Failure? {
        return built;
      }
      var returnMap := CopyLinkedMap(built.value);
      assert definition !in profileMapsBuilt;
      profileCache := profileCache[definition := returnMap];
      profileMapsBuilt := profileMapsBuilt + [definition];
      r := Success(returnMap);
    }

    /** `getLdapProfiles`: the enabled LDAP profiles, computed from the LDAP profile map once and then supplied. */
    method GetLdapProfiles() returns (r: Result<map<string, Profile>, Exception>)
      requires Valid()
      modifies this
      ensures Valid()
      ensures r == EnabledLdapProfiles()
      ensures old(ldapProfilesSupplied).Some? ==> r == Success(old(ldapProfilesSupplied).value)
      ensures ldapProfilesSupplied == if r.Success? then Some(r.value) else None
      ensures profileCache ==
        if BuiltProfileMap(LdapProfile).Success? then old(profileCache)[LdapProfile := BuiltProfileMap(LdapProfile).value]
        else old(profileCache)
      ensures profileMapsBuilt ==
        if LdapProfile in old(profileCache) || BuiltProfileMap(LdapProfile).Failure? then old(profileMapsBuilt)
        else old(profileMapsBuilt) + [LdapProfile]
      ensures securityKeySupplied == old(securityKeySupplied) && tempInstanceKey == old(tempInstanceKey)
      ensures tempInstanceSecret == old(tempInstanceSecret)
      ensures TextCacheUnchanged() && PolicyCacheUnchanged()
    {
      if ldapProfilesSupplied.Some? {
        return Success(ldapProfilesSupplied.value);
      }
      var sourceMap := GetProfileMap(LdapProfile);
      if sourceMap.Failure? {
        return Failure(sourceMap.error);
      }
      var enabled := EnabledProfiles(sourceMap.value.entries);
      ldapProfilesSupplied := Some(enabled);
      r := Success(enabled);
    }

    /** `getDefaultLdapProfile`: some enabled LDAP profile; there is none to take when no LDAP profile is enabled. */
    method GetDefaultLdapProfile() returns (r: Result<Profile, Exception>)
      requires Valid()
      modifies this
      ensures Valid()
      ensures EnabledLdapProfiles().Failure? ==> r == Failure(EnabledLdapProfiles().error)
      ensures EnabledLdapProfiles().Success? ==>
        && (r.Success? <==> EnabledLdapProfiles().value != map[])
        && (r.Success? ==> r.value in EnabledLdapProfiles().value.Values && r.value.enabled)
        && (r.Failure? ==> r.error == NoSuchElementException)
      ensures ldapProfilesSupplied == if EnabledLdapProfiles().Success? then Some(EnabledLdapProfiles().value) else None
      ensures profileCache ==
        if BuiltProfileMap(LdapProfile).Success? then old(profileCache)[LdapProfile := BuiltProfileMap(LdapProfile).value]
        else old(profileCache)
      ensures profileMapsBuilt ==
        if LdapProfile in old(profileCache) || BuiltProfileMap(LdapProfile).Failure? then old(profileMapsBuilt)
        else old(profileMapsBuilt) + [LdapProfile]
      ensures securityKeySupplied == old(securityKeySupplied) && tempInstanceKey == old(tempInstanceKey)
      ensures tempInstanceSecret == old(tempInstanceSecret)
      ensures TextCacheUnchanged() && PolicyCacheUnchanged()
    {
      var profiles := GetLdapProfiles();
      if profiles.Failure? {
        return Failure(profiles.error);
      }
      if profiles.value == map[] {
        return Failure(NoSuchElementException);
      }
      var id :| id in profiles.value;
      EnabledProfilesIdempotent(BuiltProfileMap(LdapProfile).value.entries);
      r := Success(profiles.value[id]);
    }

    /** What `getPublicPeopleSearchProfile` computes from the store. */
    function PublicPeopleSearchProfile(): Result<Option<Profile>, Exception> {
      match ReadSettingAsBoolean(PEOPLE_SEARCH_ENABLE_PUBLIC)
      case Failure(e) => Failure(e)
      case Success(enabled) =>
        if !enabled then Success(None)
        else
          match BuiltProfileMap(PeopleSearchPublic)
          case Failure(e) => Failure(e)
          case Success(profiles) => Success(profiles.Get(settingReader.readSettingAsString(PEOPLE_SEARCH_PUBLIC_PROFILE)))
    }

    /**
     * The public profile returned is the one the registered factory makes for
     * the configured profile ID, which must be one of the category's IDs.
     */
    lemma PublicPeopleSearchProfileIsMade(p: Profile)
      ensures PublicPeopleSearchProfile() == Success(Some(p)) <==>
        && ReadSettingAsBoolean(PEOPLE_SEARCH_ENABLE_PUBLIC) == Success(true)
        && BuiltProfileMap(PeopleSearchPublic).Success?
        && schema.profileFactoryPresent(PeopleSearchPublic)
        && settingReader.readSettingAsString(PEOPLE_SEARCH_PUBLIC_PROFILE) in storedConfiguration.profileIDsForCategory(PeopleSearchPublic)
        && platform.makeProfile(PeopleSearchPublic, settingReader.readSettingAsString(PEOPLE_SEARCH_PUBLIC_PROFILE)) == Success(p)
    {
      var ids := storedConfiguration.profileIDsForCategory(PeopleSearchPublic);
      var id := settingReader.readSettingAsString(PEOPLE_SEARCH_PUBLIC_PROFILE);
      var factory := FactoryOf(PeopleSearchPublic);
      var built := BuiltProfileMap(PeopleSearchPublic);
      if built.Success? {
        if !factory.present {
          ProfileMapWithoutFactory(PeopleSearchPublic, ids, factory);
        } else {
          ProfileMapKeys(PeopleSearchPublic, ids, factory);
          if id in ids {
            var i :| 0 <= i < |ids| && ids[i] == id;
            ProfileMapValues(PeopleSearchPublic, ids, factory, i);
          } else {
            assert id !in built.value.order;
          }
        }
      }
    }

    /** `getPublicPeopleSearchProfile`: when public people search is enabled, the configured public profile if it exists. */
    method GetPublicPeopleSearchProfile() returns (r: Result<Option<Profile>, Exception>)
      requires Valid()
      modifies this
      ensures Valid()
      ensures r == PublicPeopleSearchProfile()
      ensures ReadSettingAsBoolean(PEOPLE_SEARCH_ENABLE_PUBLIC) == Success(true) ==>
        && profileCache ==
          (if BuiltProfileMap(PeopleSearchPublic).Success?
           then old(profileCache)[PeopleSearchPublic := BuiltProfileMap(PeopleSearchPublic).value]
           else old(profileCache))
        && profileMapsBuilt ==
          (if PeopleSearchPublic in old(profileCache) || BuiltProfileMap(PeopleSearchPublic).Failure? then old(profileMapsBuilt)
           else old(profileMapsBuilt) + [PeopleSearchPublic])
      ensures ReadSettingAsBoolean(PEOPLE_SEARCH_ENABLE_PUBLIC) != Success(true) ==> ProfileCacheUnchanged()
      ensures SuppliersUnchanged() && TextCacheUnchanged() && PolicyCacheUnchanged()
    {
      var enabled := ReadSettingAsBoolean(PEOPLE_SEARCH_ENABLE_PUBLIC);
      if enabled.Failure? {
        return Failure(enabled.error);
      }
      if !enabled.value {
        return Success(None);
      }
      var profileID := settingReader.readSettingAsString(PEOPLE_SEARCH_PUBLIC_PROFILE);
      var profiles := GetProfileMap(PeopleSearchPublic);
      if profiles.Failure? {
        return Failure(profiles.error);
      }
      r := Success(profiles.value.Get(profileID));
    }

    // ---- Localized text ----

    /** The loop of `readLocalizedBundle`: puts each stored entry under its parsed locale, in order. */
    method BuildLocalizedMap(entries: seq<(string, string)>) returns (localizedMap: LinkedMap<Locale, string>)
      ensures localizedMap == LocalizedMap(entries, platform.parseLocaleString)
    {
      localizedMap := EmptyLinkedMap();
      var i := 0;
      while i < |entries|
        invariant i <= |entries|
        invariant localizedMap == LocalizedMap(entries[..i], platform.parseLocaleString)
      {
        assert entries[..i + 1][..i] == entries[..i];
        localizedMap := localizedMap.Put(platform.parseLocaleString(entries[i].0), entries[i].1);
        i := i + 1;
      }
      assert entries[..i] == entries;
    }

    /**
     * `readLocalizedBundle`: the localized texts of a bundle key, or `None`
     * when the store has none. Both outcomes are cached under the key, and
     * the store is read only on a cache miss.
     */
    method ReadLocalizedBundle(bundle: PwmLocaleBundle, keyName: string) returns (r: Option<LinkedMap<Locale, string>>)
      requires Valid()
      modifies this
      ensures Valid()
      ensures r == StoredBundle(bundle, keyName)
      ensures CacheKey(bundle, keyName) in old(customText) ==> r == old(customText)[CacheKey(bundle, keyName)]
      ensures customText == old(customText)[CacheKey(bundle, keyName) := r]
      ensures localeBundleReads ==
        if CacheKey(bundle, keyName) in old(customText) then old(localeBundleReads)
        else old(localeBundleReads) + [(bundle, keyName)]
      ensures SuppliersUnchanged() && PolicyCacheUnchanged() && ProfileCacheUnchanged()
    {
      var key := CacheKey(bundle, keyName);
      if key in customText {
        TextCacheHit(customText, customTextSource, localeBundleReads,
                     storedConfiguration.readLocaleBundleMap, platform.parseLocaleString, bundle, keyName);
        return customText[key];
      }
      r := LoadLocalizedBundle(bundle, keyName);
    }

    /** The cache-miss path of `readLocalizedBundle`: reads the store, builds the map and caches the outcome. */
    method LoadLocalizedBundle(bundle: PwmLocaleBundle, keyName: string) returns (r: Option<LinkedMap<Locale, string>>)
      requires Valid() && CacheKey(bundle, keyName) !in customText
      modifies this
      ensures Valid()
      ensures r == StoredBundle(bundle, keyName)
      ensures customText == old(customText)[CacheKey(bundle, keyName) := r]
      ensures localeBundleReads == old(localeBundleReads) + [(bundle, keyName)]
      ensures SuppliersUnchanged() && PolicyCacheUnchanged() && ProfileCacheUnchanged()
    {
      var storedValue := storedConfiguration.readLocaleBundleMap(bundle, keyName);
      if storedValue.None? || storedValue.value == [] {
        r := None;
      } else {
        var localizedMap := BuildLocalizedMap(storedValue.value);
        r := Some(localizedMap);
      }
      var key := CacheKey(bundle, keyName);
      TextCacheAdd(customText, customTextSource, localeBundleReads,
                   storedConfiguration.readLocaleBundleMap, platform.parseLocaleString, bundle, keyName, r);
      localeBundleReads := localeBundleReads + [(bundle, keyName)];
      customText := customText[key := r];
      customTextSource := customTextSource[key := (bundle, keyName)];
    }

    // ---- Password policies ----

    /** The first `computeIfAbsent` of `getPasswordPolicy`: the profile's inner map, added empty when missing. */
    method PolicyProfileCache(profile: string) returns (inner: map<Locale, PwmPasswordPolicy>)
      requires Valid()
      modifies this
      ensures Valid()
      ensures profile in old(cachedPasswordPolicy) ==> inner == old(cachedPasswordPolicy)[profile] && PolicyCacheUnchanged()
      ensures profile !in old(cachedPasswordPolicy) ==>
        inner == map[] && cachedPasswordPolicy == old(cachedPasswordPolicy)[profile := map[]]
      ensures profile in cachedPasswordPolicy && cachedPasswordPolicy[profile] == inner
      ensures policiesCreated == old(policiesCreated)
      ensures SuppliersUnchanged() && TextCacheUnchanged() && ProfileCacheUnchanged()
    {
      if profile !in cachedPasswordPolicy {
        PolicyCacheAddProfile(cachedPasswordPolicy, policiesCreated, platform.createPasswordPolicy, profile);
        cachedPasswordPolicy := cachedPasswordPolicy[profile := map[]];
      }
      inner := cachedPasswordPolicy[profile];
    }

    /**
     * `getPasswordPolicy`: the policy of a profile and locale, created on the
     * first successful call and cached. The profile's inner map is added even
     * when creating the policy fails.
     */
    method GetPasswordPolicy(profile: string, locale: Locale) returns (r: Result<PwmPasswordPolicy, Exception>)
      requires Valid()
      modifies this
      ensures Valid()
      ensures r == platform.createPasswordPolicy(profile, locale)
      ensures profile in old(cachedPasswordPolicy) && locale in old(cachedPasswordPolicy)[profile] ==>
        r == Success(old(cachedPasswordPolicy)[profile][locale]) && PolicyCacheUnchanged()
      ensures profile !in old(cachedPasswordPolicy) && r.Failure? ==>
        cachedPasswordPolicy == old(cachedPasswordPolicy)[profile := map[]] && policiesCreated == old(policiesCreated)
      ensures profile in old(cachedPasswordPolicy) && r.Failure? ==> PolicyCacheUnchanged()
      ensures profile !in old(cachedPasswordPolicy) && r.Success? ==>
        && cachedPasswordPolicy == old(cachedPasswordPolicy)[profile := map[locale := r.value]]
        && policiesCreated == old(policiesCreated) + [(profile, locale)]
      ensures profile in old(cachedPasswordPolicy) && locale !in old(cachedPasswordPolicy)[profile] && r.Success? ==>
        && cachedPasswordPolicy == old(cachedPasswordPolicy)[profile := old(cachedPasswordPolicy)[profile][locale := r.value]]
        && policiesCreated == old(policiesCreated) + [(profile, locale)]
      ensures SuppliersUnchanged() && TextCacheUnchanged() && ProfileCacheUnchanged()
    {
      var inner := PolicyProfileCache(profile);
      if locale in inner {
        return Success(inner[locale]);
      }
      r := platform.createPasswordPolicy(profile, locale);
      if r.Success? {
        PolicyCacheAddPolicy(cachedPasswordPolicy, policiesCreated, platform.createPasswordPolicy, profile, locale);
        ghost var before := cachedPasswordPolicy;
        cachedPasswordPolicy := cachedPasswordPolicy[profile := inner[locale := r.value]];
        assert profile !in old(cachedPasswordPolicy) ==> cachedPasswordPolicy == old(cachedPasswordPolicy)[profile := map[locale := r.value]] by {
          if profile !in old(cachedPasswordPolicy) {
            assert before == old(cachedPasswordPolicy)[profile := map[]];
            assert inner[locale := r.value] == map[locale := r.value];
          }
        }
        policiesCreated := policiesCreated + [(profile, locale)];
      }
    }

    // ---- Derived queries ----

    /** `getGenericStorageLocations`: the storage methods the setting's dash-separated tokens name, in order. */
    method GenericStorageLocations(setting: PwmSetting) returns (storageMethods: seq<DataStorageMethod>)
      ensures storageMethods == StorageLocations(settingReader.readSettingAsString(setting))
    {
      var input := settingReader.readSettingAsString(setting);
      var tokens := JavaSplit(input, '-');
      storageMethods := [];
      var i := 0;
      while i < |tokens|
        invariant i <= |tokens|
        invariant storageMethods == KnownStorageMethods(tokens[..i])
      {
        assert tokens[..i + 1][..i] == tokens[..i];
        var decoded := DataStorageMethod.ValueOf(tokens[i]);
        if decoded.Some? {
          storageMethods := storageMethods + [decoded.value];
        }
        i := i + 1;
      }
      assert tokens[..i] == tokens;
    }

    /** `hasDbConfigured`: class, URL and user name are non-empty and a password is set. */
    function HasDbConfigured(): (r: bool)
      ensures r <==>
        && settingReader.readSettingAsString(DATABASE_CLASS) != ""
        && settingReader.readSettingAsString(DATABASE_URL) != ""
        && settingReader.readSettingAsString(DATABASE_USERNAME) != ""
        && settingReader.readSettingAsPassword(DATABASE_PASSWORD).Some?
    {
      && |settingReader.readSettingAsString(DATABASE_CLASS)| != 0
      && |settingReader.readSettingAsString(DATABASE_URL)| != 0
      && |settingReader.readSettingAsString(DATABASE_USERNAME)| != 0
      && settingReader.readSettingAsPassword(DATABASE_PASSWORD) != None
    }

    /** `nonDefaultSettings`: the settings of the modified `SETTING` items, as a `LinkedHashSet` collects them. */
    method NonDefaultSettings() returns (returnSet: seq<PwmSetting>)
      ensures returnSet == Distinct(SettingRecords(storedConfiguration.modifiedItems))
    {
      var items := storedConfiguration.modifiedItems;
      returnSet := [];
      var i := 0;
      while i < |items|
        invariant i <= |items|
        invariant returnSet == Distinct(SettingRecords(items[..i]))
      {
        assert items[..i + 1][..i] == items[..i];
        var key := items[i];
        if key.GetRecordType() == SETTING {
          var recorded := SettingRecords(items[..i]);
          assert SettingRecords(items[..i + 1]) == recorded + [key.setting];
          assert (recorded + [key.setting])[..|recorded|] == recorded;
          assert Distinct(recorded + [key.setting]) ==
            if key.setting in Distinct(recorded) then Distinct(recorded) else Distinct(recorded) + [key.setting];
          if key.setting !in returnSet {
            returnSet := returnSet + [key.setting];
          }
        } else {
          assert SettingRecords(items[..i + 1]) == SettingRecords(items[..i]) + [];
          assert SettingRecords(items[..i]) + [] == SettingRecords(items[..i]);
        }
        i := i + 1;
      }
      assert items[..i] == items;
    }

    /** `readAllNonDefaultAppProperties`: each property whose value differs from its default, with that value. */
    method ReadAllNonDefaultAppProperties() returns (nonDefaultProperties: map<AppProperty, string>)
      ensures forall property :: property in nonDefaultProperties <==>
        property in schema.appPropertyValues && ReadAppProperty(property) != schema.appPropertyDefault(property)
      ensures forall property :: property in nonDefaultProperties ==> nonDefaultProperties[property] == ReadAppProperty(property)
    {
      var values := schema.appPropertyValues;
      nonDefaultProperties := map[];
      var i := 0;
      while i < |values|
        invariant i <= |values|
        invariant forall property :: property in nonDefaultProperties <==>
          property in values[..i] && ReadAppProperty(property) != schema.appPropertyDefault(property)
        invariant forall property :: property in nonDefaultProperties ==> nonDefaultProperties[property] == ReadAppProperty(property)
      {
        assert values[..i + 1] == values[..i] + [values[i]];
        var loopProperty := values[i];
        var configuredValue := ReadAppProperty(loopProperty);
        var defaultValue := schema.appPropertyDefault(loopProperty);
        if configuredValue != defaultValue {
          nonDefaultProperties := nonDefaultProperties[loopProperty := configuredValue];
        }
        i := i + 1;
      }
      assert values[..i] == values;
    }

    /** `readCertificateMatchingMode`: the configured mode, or `CA_ONLY` when the setting names none. */
    function ReadCertificateMatchingMode(): (mode: CertificateMatchingMode)
      ensures CertificateMatchingMode.ValueOf(settingReader.readEnumLiteral(CERTIFICATE_VALIDATION_MODE)).None? ==> mode == CA_ONLY
      ensures CertificateMatchingMode.ValueOf(settingReader.readEnumLiteral(CERTIFICATE_VALIDATION_MODE)).Some? ==>
        mode == CertificateMatchingMode.ValueOf(settingReader.readEnumLiteral(CERTIFICATE_VALIDATION_MODE)).value
      // The same two clauses read by name: the result is the default or the mode the literal names.
      ensures mode == CA_ONLY || mode.Name() == settingReader.readEnumLiteral(CERTIFICATE_VALIDATION_MODE)
    {
      var configured := CertificateMatchingMode.ValueOf(settingReader.readEnumLiteral(CERTIFICATE_VALIDATION_MODE));
      if configured.None? then CA_ONLY else configured.value
    }

    /** `getTokenStorageMethod`: the configured token storage method, `None` when the setting names none. */
    function GetTokenStorageMethod(): (r: Option<TokenStorageMethod>)
      ensures r.Some? ==> r.value.Name() == settingReader.readSettingAsString(TOKEN_STORAGEMETHOD)
      ensures r.None? ==> forall m: TokenStorageMethod :: m.Name() != settingReader.readSettingAsString(TOKEN_STORAGEMETHOD)
    {
      TokenStorageMethod.ValueOf(settingReader.readSettingAsString(TOKEN_STORAGEMETHOD))
    }

    /** `getChallengeProfile`: a fresh read for the empty (default) profile or a listed profile ID; any other ID is rejected. */
    function GetChallengeProfile(profile: string, locale: Locale): (r: Result<ChallengeProfile, Exception>)
      ensures r.Success? <==> profile == "" || profile in storedConfiguration.challengeProfileIDs
      ensures r.Success? ==> r.value == platform.readChallengeProfile(profile, locale)
      ensures r.Failure? ==> r.error == IllegalArgumentException("unknown challenge profileID specified: " + profile)
    {
      if profile != "" && profile !in storedConfiguration.challengeProfileIDs then
        Failure(IllegalArgumentException("unknown challenge profileID specified: " + profile))
      else
        Success(platform.readChallengeProfile(profile, locale))
    }

    /** `readStoredValue`: the non-profiled value of a setting; a setting of a profiled category is an illegal state. */
    function ReadStoredValue(setting: PwmSetting): (r: Result<StoredValue, Exception>)
      ensures r.Success? <==> !schema.hasProfiles(setting)
      ensures r.Success? ==> r.value == storedConfiguration.readSetting(setting)
      ensures r.Failure? ==>
        r.error == IllegalStateException(
          "attempt to read setting value for setting '" + schema.settingKey(setting) + "' as non-profiled setting ")
    {
      if schema.hasProfiles(setting) then
        Failure(IllegalStateException(
          "attempt to read setting value for setting '" + schema.settingKey(setting) + "' as non-profiled setting "))
      else
        Success(storedConfiguration.readSetting(setting))
    }

    /** `readSettingAsBoolean`: the converted stored value, failing as `readStoredValue` does. */
    function ReadSettingAsBoolean(setting: PwmSetting): (r: Result<bool, Exception>)
      ensures r.Success? <==> ReadStoredValue(setting).Success?
      ensures r.Success? ==> r.value == platform.valueToBoolean(storedConfiguration.readSetting(setting))
      ensures r.Failure? ==> r.error == ReadStoredValue(setting).error
    {
      var value :- ReadStoredValue(setting);
      Success(platform.valueToBoolean(value))
    }

    /** `readSettingAsStringArray`: the converted stored value, failing as `readStoredValue` does. */
    function ReadSettingAsStringArray(setting: PwmSetting): (r: Result<seq<string>, Exception>)
      ensures r.Success? <==> ReadStoredValue(setting).Success?
      ensures r.Success? ==> r.value == platform.valueToStringArray(storedConfiguration.readSetting(setting))
      ensures r.Failure? ==> r.error == ReadStoredValue(setting).error
    {
      var value :- ReadStoredValue(setting);
      Success(platform.valueToStringArray(value))
    }
  }
}
