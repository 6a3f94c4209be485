/**
 * The collaborators of the facade whose code is not part of this model.
 * Each is a record of total functions: the model and its proofs hold for
 * every choice of them. A function returning a `Result` stands for code
 * that may throw.
 */
module Collaborators {
  import opened Wrappers
  import opened Errors
  import opened Settings

  /** `java.util.Locale`, opaque here. */
  datatype Locale = Locale(tag: string)

  /** The identifier of the domain a configuration belongs to. */
  datatype DomainID = DomainID(id: string)

  /** A raw stored setting value, decoded only by `ValueTypeConverter`. */
  datatype StoredValue = StoredValue(encoded: string)

  /** A secret setting value. */
  datatype PasswordData = PasswordData(stringValue: string)

  /** The key material `PwmSecurityKey` derives from a secret. */
  datatype PwmSecurityKey = PwmSecurityKey(keyData: seq<int>)

  /** A built profile of any category. */
  datatype Profile = Profile(identifier: string, enabled: bool)

  datatype PwmPasswordPolicy = PwmPasswordPolicy(profileID: string, locale: Locale, rules: map<string, string>)

  datatype ChallengeProfile = ChallengeProfile(profileID: string, locale: Locale, questions: seq<string>)

  /** The immutable settings store. */
  datatype StoredConfiguration = StoredConfiguration(
    /** `readSetting(setting, null)`: the non-profiled raw value. */
    readSetting: PwmSetting -> StoredValue,
    /** `readLocaleBundleMap(bundle, key)`: locale tag and text pairs in the map's iteration order, or `null`. */
    readLocaleBundleMap: (PwmLocaleBundle, string) -> Option<seq<(string, string)>>,
    /** `modifiedItems()` in the snapshot's iteration order. */
    modifiedItems: seq<StoredConfigItemKey>,
    /** `ProfileUtility.profileIDsForCategory`: the ordered profile IDs of a definition's category. */
    profileIDsForCategory: ProfileDefinition -> seq<string>,
    /** `profilesForSetting(CHALLENGE_PROFILE_LIST, ...)`. */
    challengeProfileIDs: seq<string>)

  datatype AppConfig = AppConfig(
    storedConfiguration: StoredConfiguration,
    readAppProperty: AppProperty -> string)

  /** The typed-read layer over the store. */
  datatype SettingReader = SettingReader(
    readSettingAsString: PwmSetting -> string,
    readSettingAsPassword: PwmSetting -> Option<PasswordData>,
    /** The literal an enum-valued setting holds. */
    readEnumLiteral: PwmSetting -> string)

  /** Facts of the schema that live in enum declarations. */
  datatype Schema = Schema(
    /** `setting.getCategory().hasProfiles()`. */
    hasProfiles: PwmSetting -> bool,
    /** `setting.getKey()`. */
    settingKey: PwmSetting -> string,
    /** `AppProperty.values()`. */
    appPropertyValues: seq<AppProperty>,
    /** `AppProperty.getDefaultValue()`. */
    appPropertyDefault: AppProperty -> string,
    /** `ProfileDefinition.getProfileFactoryClass().isPresent()`. */
    profileFactoryPresent: ProfileDefinition -> bool)

  /** Library code the facade calls into. */
  datatype Platform = Platform(
    valueToBoolean: StoredValue -> bool,
    valueToStringArray: StoredValue -> seq<string>,
    /** `new PwmSecurityKey(String)`, which may throw. */
    newSecurityKey: string -> Result<PwmSecurityKey, Exception>,
    /** `LocaleHelper.parseLocaleString`. */
    parseLocaleString: string -> Locale,
    /** `PwmPasswordPolicy.createPwmPasswordPolicy(config, profile, locale)`. */
    createPasswordPolicy: (string, Locale) -> Result<PwmPasswordPolicy, Exception>,
    /** Whether the reflective no-argument construction of a definition's factory class succeeds. */
    factoryInstantiates: ProfileDefinition -> bool,
    /** `makeFromStoredConfiguration(storedConfiguration, profileID)` of a definition's factory. */
    makeProfile: (ProfileDefinition, string) -> Result<Profile, Exception>,
    /** `ChallengeProfile.readChallengeProfileFromConfig`. */
    readChallengeProfile: (string, Locale) -> ChallengeProfile)
}
