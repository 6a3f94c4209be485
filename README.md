# DomainConfig, modelled in Dafny

PWM's `DomainConfig` is the per-domain facade over an immutable settings
store (`StoredConfiguration`). Most of its methods pass a setting on to a
reader or converter. The rest is a small amount of logic of its own:

- a lazily derived security key, with an ephemeral fallback key that is
  generated once;
- three memoising caches held in its `DataCache`: localized texts,
  password policies and profile maps;
- the loop that builds a profile map from a category's profile IDs;
- a handful of derived queries: storage locations, the enabled LDAP
  profiles, database presence, non-default settings and properties,
  certificate mode, token storage method, challenge profiles and the
  public people-search profile.

This project models that logic and proves what it promises.

`DomainConfiguration.DomainConfig` is a class. Its collaborators (the store,
the application configuration, the setting reader, the schema facts and the
library code) are `const` fields. Each collaborator is a record of total
functions, so every proof holds for every store and every library behaviour.

Its caches and suppliers are mutable fields:

- `securityKeySupplied`, `tempInstanceKey`, `ldapProfilesSupplied`;
- `customText`, `cachedPasswordPolicy` and `profileCache`.

Ghost logs record which store reads, policy creations and profile-map builds
have happened. The class invariant `Valid()` ties every cached value to the
value it memoises, and says that each log lists each key once and only keys
that are cached: a cached value was computed at most once. Every method that
changes state keeps `Valid()` and states its whole new state.

Code that only computes is modelled as functions with lemmas, in these modules:

- `SecurityKeys`: the key-derivation rules;
- `StorageLocationSettings`: parsing a storage-location setting;
- `LocalizedText`: the cache key and the locale map;
- `Profiles`: building a profile map and filtering enabled profiles;
- `Settings`: the modified-setting records.

The source's loops are methods with loop invariants:

- `ProfileMapBuilder.BuildProfileMap`;
- `DomainConfig.BuildLocalizedMap`;
- `DomainConfig.GenericStorageLocations`;
- `DomainConfig.NonDefaultSettings`;
- `DomainConfig.ReadAllNonDefaultAppProperties`;
- `Collections.CopyLinkedMap`.

Each loop is proved against a specification: equal to its specification function, or, for `ReadAllNonDefaultAppProperties`, to a pointwise statement of which properties appear with which value, and, for `CopyLinkedMap`, equal to the map it copies. `JavaLang` models the
Java library behaviour that decides results: `String.split` with a
one-character separator, `Integer.parseInt` and `String.length()`.
`Collections` models `LinkedHashMap` and `LinkedHashSet`.

Exceptions are values. An operation that may throw returns
`Result<T, Exception>`, and each exception is modelled as the case the Java
code raises, with its message.

## Model

All paths below are under `server/src/main/java/password/pwm/config/`; the source cells give the full path.

| member | source | states |
|---|---|---|
| DomainConfiguration.DomainConfig.constructor | server/src/main/java/password/pwm/config/DomainConfig.java:105-111 | The store is the application's store; all suppliers are empty, all caches are empty and the invariant holds. |
| DomainConfiguration.DomainConfig.GetSecurityKey | server/src/main/java/password/pwm/config/DomainConfig.java:406-444 | A supplied key is returned again. An unconfigured (absent or empty) key yields the ephemeral key, which is created from the random secret only if none exists and is then kept with its secret. A configured key yields `ConfiguredSecurityKey`. Only successes are memoised, and every cache outside the suppliers is unchanged. |
| DomainConfiguration.DomainConfig.SecurityKeyIsStable | server/src/main/java/password/pwm/config/DomainConfig.java:291-296 | Two calls in a row: after a success the second call returns the identical key whatever the second random secret is. With a configured key, even a failure repeats, and an existing ephemeral key is never replaced. An ephemeral key is created at most once, from the first call that succeeds. The supplier ends holding the second result when it succeeded and empty otherwise; the LDAP supplier and every cache and log are unchanged. |
| SecurityKeys.ConfiguredSecurityKey | server/src/main/java/password/pwm/config/DomainConfig.java:424-442 | Success exactly when the minimum parses, the secret's UTF-16 length is at least the minimum and construction succeeds; the key is then the constructed one. An unparsable minimum is a `NumberFormatException`; every other failure is unrecoverable with `ERROR_INVALID_SECURITY_KEY`. |
| SecurityKeys.ShortSecretIsFatal | server/src/main/java/password/pwm/config/DomainConfig.java:425-430 | A secret shorter than the minimum fails with `ERROR_INVALID_SECURITY_KEY`, whatever the key constructor would do. |
| SecurityKeys.SecretOfMinimumLengthAccepted | server/src/main/java/password/pwm/config/DomainConfig.java:425 | The comparison is strict: a secret exactly as long as the minimum is handed to the constructor, and its key is returned. |
| SecurityKeys.ConstructionFailureWrapped | server/src/main/java/password/pwm/config/DomainConfig.java:432-442 | A constructor exception is re-raised as an unrecoverable `ERROR_INVALID_SECURITY_KEY` whose detail carries the cause's message. |
| SecurityKeys.DefaultMinimumParses | server/src/main/java/password/pwm/config/DomainConfig.java:424 | The property text "32" parses to 32. |
| SecurityKeys.DefaultMinimumLength | server/src/main/java/password/pwm/config/DomainConfig.java:424-434 | With minimum "32", a 31-character secret is fatal and a 40-character secret is built. |
| JavaLang.ParseInt | server/src/main/java/password/pwm/config/DomainConfig.java:424 | `Integer.parseInt`: a result always lies in the 32-bit range. |
| JavaLang.ParseIntOfDecimal | server/src/main/java/password/pwm/config/DomainConfig.java:424 | `parseInt` reads back the decimal text of every non-negative 32-bit value. |
| JavaLang.ParseIntOfNegativeDecimal | server/src/main/java/password/pwm/config/DomainConfig.java:424 | `parseInt` reads back "-" followed by the digits of every negative 32-bit value. |
| JavaLang.Utf16Length | server/src/main/java/password/pwm/config/DomainConfig.java:425 | `String.length()` lies between the character count and twice the character count. |
| JavaLang.Utf16LengthOfBmp | server/src/main/java/password/pwm/config/DomainConfig.java:425 | For text inside the Basic Multilingual Plane, `length()` is the character count. |
| JavaLang.SplitOn | server/src/main/java/password/pwm/config/DomainConfig.java:312 | There is always at least one piece, and no piece contains the separator. |
| JavaLang.StripTrailingEmpty | server/src/main/java/password/pwm/config/DomainConfig.java:312 | The result is a prefix of the pieces, does not end in an empty piece, and only empty pieces were dropped. |
| JavaLang.JavaSplit | server/src/main/java/password/pwm/config/DomainConfig.java:312 | `split` with limit 0: text without the separator comes back whole. Otherwise the result is the longest prefix of all pieces that does not end in an empty piece, and only empty pieces are dropped. No piece contains the separator. |
| JavaLang.JavaSplitEmpty | server/src/main/java/password/pwm/config/DomainConfig.java:312 | The empty string splits into one empty piece, not into none. |
| JavaLang.JavaSplitOnlySeparator | server/src/main/java/password/pwm/config/DomainConfig.java:312 | A lone separator splits into no pieces at all. |
| JavaLang.JavaSplitJoin | server/src/main/java/password/pwm/config/DomainConfig.java:312 | Splitting a join of separator-free pieces whose last piece is non-empty gives the pieces back. |
| JavaLang.SplitOnJoin | server/src/main/java/password/pwm/config/DomainConfig.java:312 | Splitting pieces joined with the separator gives the pieces back, provided none of them contains the separator. |
| Options.DataStorageMethod.Name | server/src/main/java/password/pwm/config/DomainConfig.java:316 | A constant's name is non-empty and contains no dash. |
| Options.DataStorageMethod.ValueOf | server/src/main/java/password/pwm/config/DomainConfig.java:316 | `valueOf` finds the constant with exactly that name, and nothing when no constant has it. |
| Options.DataStorageMethodValueOfName | server/src/main/java/password/pwm/config/DomainConfig.java:316 | `valueOf(name())` is the constant itself. |
| Options.TokenStorageMethod.ValueOf | server/src/main/java/password/pwm/config/DomainConfig.java:347 | The constant named exactly by the text, or nothing when no constant has that name. |
| Options.CertificateMatchingMode.ValueOf | server/src/main/java/password/pwm/config/DomainConfig.java:599 | The constant named exactly by the text, or nothing when no constant has that name. |
| StorageLocationSettings.KnownStorageMethods | server/src/main/java/password/pwm/config/DomainConfig.java:312-322 | Decoding tokens never yields more methods than there are tokens. |
| StorageLocationSettings.KnownStorageMethodsAppend | server/src/main/java/password/pwm/config/DomainConfig.java:312-322 | Decoding distributes over concatenation of token lists, so the input order is kept. |
| StorageLocationSettings.KnownStorageMethodsIgnoreTrailingEmpty | server/src/main/java/password/pwm/config/DomainConfig.java:312 | The trailing empty tokens `split` drops never change which methods are found. |
| StorageLocationSettings.StorageLocationsOfPieces | server/src/main/java/password/pwm/config/DomainConfig.java:310-322 | The result is the known methods among all dash-separated pieces of the setting, with empty pieces included. |
| StorageLocationSettings.KnownStorageMethodsMembership | server/src/main/java/password/pwm/config/DomainConfig.java:312-322 | A method is found exactly when one of the tokens is its name. |
| StorageLocationSettings.StorageLocationsMembership | server/src/main/java/password/pwm/config/DomainConfig.java:308-324 | A method is in the result exactly when one of the setting's dash-separated pieces is its name. |
| StorageLocationSettings.KnownStorageMethodsOfNames | server/src/main/java/password/pwm/config/DomainConfig.java:316 | Decoding the names of a list of methods gives the list back. |
| StorageLocationSettings.StorageLocationsRoundTrip | server/src/main/java/password/pwm/config/DomainConfig.java:308-324 | Writing any list of methods with dashes between them and reading the text back gives the same list, in the same order and with repeats. |
| StorageLocationSettings.ExampleSplit | server/src/main/java/password/pwm/config/DomainConfig.java:312 | "LDAP-DB-UNKNOWNX" splits into its three pieces. |
| StorageLocationSettings.ExampleTokens | server/src/main/java/password/pwm/config/DomainConfig.java:314-321 | Of the tokens LDAP, DB and UNKNOWNX, the unknown one is dropped. |
| StorageLocationSettings.StorageLocationsDropUnknown | server/src/main/java/password/pwm/config/DomainConfig.java:308-324 | "LDAP-DB-UNKNOWNX" names exactly LDAP then DB, and the unknown token causes no failure. |
| DomainConfiguration.DomainConfig.GenericStorageLocations | server/src/main/java/password/pwm/config/DomainConfig.java:308-324 | The loop returns exactly `StorageLocations` of the setting's text, which the lemmas above characterise. |
| LocalizedText.CacheKeyInjective | server/src/main/java/password/pwm/config/DomainConfig.java:192 | Two (bundle, key) pairs with the same cache key are the same pair, because bundle names contain no dash. |
| LocalizedText.LocaleTags | server/src/main/java/password/pwm/config/DomainConfig.java:207-209 | The tags are the entries' locale keys, one per entry and in entry order. |
| LocalizedText.ParsedLocales | server/src/main/java/password/pwm/config/DomainConfig.java:210 | Each locale is the parse of the tag at the same position. |
| LocalizedText.LocalizedMap | server/src/main/java/password/pwm/config/DomainConfig.java:206-211 | The locale map built from the entries is a well-formed linked map. |
| LocalizedText.LocalizedBundle | server/src/main/java/password/pwm/config/DomainConfig.java:199-214 | The result is absent exactly when the stored map is absent or empty; otherwise it is the locale map of the entries. |
| LocalizedText.LocalizedMapLocales | server/src/main/java/password/pwm/config/DomainConfig.java:206-211 | The map's keys are the entries' parsed locales, each once, in first-occurrence order. |
| LocalizedText.LocalizedMapText | server/src/main/java/password/pwm/config/DomainConfig.java:207-211 | An entry's text is found under its parsed locale unless a later entry parses to the same locale. |
| LocalizedText.LocalizedMapTexts | server/src/main/java/password/pwm/config/DomainConfig.java:206-211 | When no two entries parse to the same locale, every entry's text is found under its locale. |
| DomainConfiguration.DomainConfig.BuildLocalizedMap | server/src/main/java/password/pwm/config/DomainConfig.java:206-211 | The loop returns exactly `LocalizedMap` of the stored entries. |
| DomainConfiguration.DomainConfig.ReadLocalizedBundle | server/src/main/java/password/pwm/config/DomainConfig.java:190-215 | The result is what the store holds for the pair; a cached key returns the cached value, the explicit absent marker included. Afterwards the key is cached with the result, and the store read is logged only on a miss. |
| DomainConfiguration.DomainConfig.LoadLocalizedBundle | server/src/main/java/password/pwm/config/DomainConfig.java:199-214 | On a miss: reads the store once, caches the absent marker or the locale map under the pair's key and logs the read. |
| CacheInvariants.TextCacheHit | server/src/main/java/password/pwm/config/DomainConfig.java:193-196 | A cached entry is what the looked-up pair itself reads to. |
| CacheInvariants.TextCacheAdd | server/src/main/java/password/pwm/config/DomainConfig.java:199-213 | Caching a missed pair's value and logging the read keeps the text cache in agreement with the store, with each pair read once. |
| DomainConfiguration.DomainConfig.PolicyProfileCache | server/src/main/java/password/pwm/config/DomainConfig.java:245-246 | The first `computeIfAbsent` returns the profile's inner map, adding an empty one when the profile is missing. |
| DomainConfiguration.DomainConfig.GetPasswordPolicy | server/src/main/java/password/pwm/config/DomainConfig.java:243-248 | The result is what policy creation gives for the profile and locale; a cached policy is returned unchanged. The empty inner map stays after a failed creation. A success is cached and logged once. |
| CacheInvariants.PolicyCacheAddProfile | server/src/main/java/password/pwm/config/DomainConfig.java:246 | Adding an empty inner map for a new profile keeps the policy cache in agreement with policy creation. |
| CacheInvariants.PolicyCacheAddPolicy | server/src/main/java/password/pwm/config/DomainConfig.java:247 | Caching a newly created policy and logging it keeps the cache in agreement, with each pair created once. |
| Profiles.NewProfileForID | server/src/main/java/password/pwm/config/DomainConfig.java:544-566 | A registered, constructible factory makes the profile. A factory that cannot be constructed, or a missing factory, is an `IllegalStateException` with the source's message. |
| Profiles.ProfileMapOf | server/src/main/java/password/pwm/config/DomainConfig.java:530-542 | A successful build is a well-formed linked map. |
| Profiles.ProfileMapWithoutFactory | server/src/main/java/password/pwm/config/DomainConfig.java:535 | Without a registered factory the map is empty, whatever the profile IDs are. |
| Profiles.ProfileMapSucceeds | server/src/main/java/password/pwm/config/DomainConfig.java:530-542 | The build succeeds exactly when there is no factory, there are no IDs, or the factory is constructible and makes every profile. |
| Profiles.ProfileMapKeys | server/src/main/java/password/pwm/config/DomainConfig.java:532-539 | With a factory, the keys are exactly the profile IDs, each once, in first-occurrence order. |
| Profiles.ProfileMapValues | server/src/main/java/password/pwm/config/DomainConfig.java:537-538 | Every ID maps to the profile the factory makes for it. |
| Profiles.ProfileMapFirstFailure | server/src/main/java/password/pwm/config/DomainConfig.java:533-538 | The first ID whose profile cannot be made decides the exception of the whole build. |
| Profiles.ProfileMapVisit | server/src/main/java/password/pwm/config/DomainConfig.java:533-540 | One loop visit: no factory keeps the map, a failure ends the build with that exception, a success puts the new profile. |
| Profiles.ProfileMapFailurePersists | server/src/main/java/password/pwm/config/DomainConfig.java:533-537 | Once a prefix of the IDs fails, the whole build fails with the same exception. |
| Profiles.ProfileMapUninstantiable | server/src/main/java/password/pwm/config/DomainConfig.java:559-562 | A factory that cannot be constructed fails every non-empty build with the illegal-state message. |
| ProfileMapBuilder.BuildProfileMap | server/src/main/java/password/pwm/config/DomainConfig.java:530-542 | The loop returns exactly `ProfileMapOf` over the category's ordered IDs, early exit on an exception included. |
| Collections.LinkedMap.Put | server/src/main/java/password/pwm/config/DomainConfig.java:538 | `put` keeps the map well-formed, stores the value under the key, leaves other keys alone and adds the key to the key set. |
| Collections.PutOrder | server/src/main/java/password/pwm/config/DomainConfig.java:538 | A new key goes to the end of the key order; a re-put key keeps its position. |
| Collections.DistinctOfNoDuplicates | server/src/main/java/password/pwm/config/DomainConfig.java:538 | A duplicate-free sequence is its own `Distinct`, so `PutOrder` applies to the key order of every valid linked map. |
| Collections.CopyLinkedMap | server/src/main/java/password/pwm/config/DomainConfig.java:519-524 | Copying entry by entry into an empty linked map gives back the same map, key order included. |
| DomainConfiguration.DomainConfig.GetProfileMap | server/src/main/java/password/pwm/config/DomainConfig.java:515-528 | The result is the definition's built map. A cached map is returned as is. A successful build is cached and logged once, a failed build caches nothing, and the other caches and suppliers are unchanged. |
| DomainConfiguration.DomainConfig.LoadProfileMap | server/src/main/java/password/pwm/config/DomainConfig.java:517-526 | On a miss: builds the map, and on success caches a copy and logs the build. |
| Profiles.EnabledProfiles | server/src/main/java/password/pwm/config/DomainConfig.java:398-402 | The result holds exactly the entries whose profile is enabled, with their profiles. |
| Profiles.EnabledProfilesIdempotent | server/src/main/java/password/pwm/config/DomainConfig.java:401 | Filtering twice equals filtering once, and every profile in the result is enabled. |
| DomainConfiguration.DomainConfig.GetLdapProfiles | server/src/main/java/password/pwm/config/DomainConfig.java:394-404 | The result is the enabled entries of the LDAP profile map. A supplied value is returned again, a success is supplied, and the LDAP map is built at most once through the profile cache. |
| DomainConfiguration.DomainConfig.GetDefaultLdapProfile | server/src/main/java/password/pwm/config/DomainConfig.java:326-329 | A build failure passes through. Otherwise the call succeeds exactly when some LDAP profile is enabled, and then returns one of the enabled profiles. The supplier, profile cache and build log end as after `getLdapProfiles`. |
| DomainConfiguration.DomainConfig.PublicPeopleSearchProfile | server/src/main/java/password/pwm/config/DomainConfig.java:605-614 | Nothing when public search is disabled; otherwise the configured profile if it is in the public people-search map. |
| DomainConfiguration.DomainConfig.PublicPeopleSearchProfileIsMade | server/src/main/java/password/pwm/config/DomainConfig.java:605-614 | A profile is returned exactly when public search is enabled, the build succeeds and the factory is registered. The configured ID must be one of the category's IDs, and the profile is the one the factory makes for that ID. |
| DomainConfiguration.DomainConfig.GetPublicPeopleSearchProfile | server/src/main/java/password/pwm/config/DomainConfig.java:605-614 | Returns `PublicPeopleSearchProfile`. When the feature is enabled, the public people-search map is cached and logged as `getProfileMap` does it: once, on success. Otherwise no profile cache changes. |
| DomainConfiguration.DomainConfig.HasDbConfigured | server/src/main/java/password/pwm/config/DomainConfig.java:363-369 | True exactly when the database class, URL and user name are non-empty and a password is set. |
| Settings.SettingRecords | server/src/main/java/password/pwm/config/DomainConfig.java:587-593 | There are never more records than items; `SettingRecordsMembership` states which settings are recorded. |
| Settings.SettingRecordsMembership | server/src/main/java/password/pwm/config/DomainConfig.java:589-591 | A setting is recorded exactly when some modified `SETTING` item, of any profile, names it. |
| Settings.NonDefaultSettingsMembership | server/src/main/java/password/pwm/config/DomainConfig.java:584-595 | The collected settings are exactly those of modified `SETTING` items, with no duplicates. |
| Collections.Distinct | server/src/main/java/password/pwm/config/DomainConfig.java:586-593 | A `LinkedHashSet` holds every element added to it, nothing else, and no duplicates. |
| Collections.DistinctKeepsFirstOccurrenceOrder | server/src/main/java/password/pwm/config/DomainConfig.java:586-593 | The set's elements appear in the order of their first occurrence. |
| DomainConfiguration.DomainConfig.NonDefaultSettings | server/src/main/java/password/pwm/config/DomainConfig.java:584-595 | The loop returns exactly `Distinct` of the setting records, which the lemmas above characterise. |
| DomainConfiguration.DomainConfig.ReadAllNonDefaultAppProperties | server/src/main/java/password/pwm/config/DomainConfig.java:454-467 | The result maps exactly those properties whose configured value differs from their default, each to its configured value. |
| DomainConfiguration.DomainConfig.ReadCertificateMatchingMode | server/src/main/java/password/pwm/config/DomainConfig.java:597-603 | The mode the setting names when it names one, and `CA_ONLY` when it names none. |
| DomainConfiguration.DomainConfig.GetTokenStorageMethod | server/src/main/java/password/pwm/config/DomainConfig.java:343-356 | The method whose name is the setting's text, or none (Java `null`) when no method has that name. |
| DomainConfiguration.DomainConfig.GetChallengeProfile | server/src/main/java/password/pwm/config/DomainConfig.java:227-236 | Succeeds exactly for the empty profile ID or a listed one, with a fresh read each time. Any other ID is an `IllegalArgumentException` naming the ID. |
| DomainConfiguration.DomainConfig.ReadStoredValue | server/src/main/java/password/pwm/config/DomainConfig.java:376-385 | Succeeds exactly for settings whose category has no profiles, with the stored value. Otherwise it is an `IllegalStateException` naming the setting's key. |
| DomainConfiguration.DomainConfig.ReadSettingAsBoolean | server/src/main/java/password/pwm/config/DomainConfig.java:271-274 | Fails exactly when `readStoredValue` fails, with the same exception; otherwise the converted stored value. |
| DomainConfiguration.DomainConfig.ReadSettingAsStringArray | server/src/main/java/password/pwm/config/DomainConfig.java:256-259 | Fails exactly when `readStoredValue` fails, with the same exception; otherwise the converted stored value. |

## Left out

- Collaborators whose code is not part of this model are total functions held in records (`Collaborators`):
  - `SettingReader`;
  - `ValueTypeConverter`;
  - `AppConfig.readAppProperty`;
  - `LocaleHelper.parseLocaleString`;
  - `PwmPasswordPolicy.createPwmPasswordPolicy`;
  - the `PwmSecurityKey` constructor;
  - the profile factories' `makeFromStoredConfiguration`;
  - `ChallengeProfile.readChallengeProfileFromConfig`;
  - `ProfileUtility.profileIDsForCategory`;
  - the category and key of a setting;
  - `AppProperty.values()` and their defaults.
- `PwmRandom.alphaNumericString(1024)` is a method parameter: the random source is left out. Its type fixes the length (1024) and the alphabet.
- `LazySupplier` is not part of this model. The suppliers are modelled as memoising a successful result only: a thrown exception leaves the supplier empty, so the next call retries.
- The enum constants of `DataStorageMethod`, `TokenStorageMethod`, `CertificateMatchingMode`, `ProfileDefinition` and the named `PwmSetting`s come from PWM's enum declarations, which are not part of this model. Every other setting or definition is a catch-all case.
- `readSettingAsEnum` is modelled as the literal the reader holds, decoded with `ValueOf`.
- The reflective construction of a profile factory (line 556) is reduced to a per-definition flag that says whether it succeeds. Its four checked exceptions are one case.
- The unchecked `(T)` cast in `getProfileMap` (line 523) is not modelled: every profile has the one type `Profile`.
- DomainConfiguration.DomainConfig.ReadLocalizedBundle: the cached `LinkedHashMap` is handed to the caller unwrapped (lines 195 and 213-214). A Java caller that mutates it changes what later cache hits return. The model passes values, so it drops this aliasing, and its cache agreement holds only for callers that never mutate the returned map.
- `Collections.unmodifiableMap` is not modelled: Dafny values cannot be mutated by callers anyway.
- The enabled LDAP profile map is a Dafny `map`, which has no order. `Collectors.toMap` builds a `HashMap`, whose order is unspecified. So `GetDefaultLdapProfile` returns some enabled profile, not a "first" one.
- DomainConfiguration.DomainConfig.GetDefaultLdapProfile: the empty case is a failure. It is given as `NoSuchElementException`, the exception the JDK's `HashMap` value iterator throws; that exception's message (Java `null`) is modelled as the empty string.
- `nonDefaultSettings` keeps the `SETTING` items of every profile. One natural reading is that only non-profiled settings count, but the code at line 589 checks only the record type, and the model follows the code.
- `readAllNonDefaultAppProperties` builds an `EnumMap`. The model builds a Dafny `map` and does not state the `EnumMap` key order.
- JavaLang.ParseInt: only the ASCII digits are accepted. Java also accepts the other Unicode decimal digits, and this is not modelled.
- Strings are sequences of Unicode scalar values, so a lone UTF-16 surrogate cannot be represented.
- Thread safety: the model is sequential. The caches are plain maps without locking, and no concurrent compute-once property is claimed.
- Logging (lines 320, 353, 415 and 440) is left out. It has no effect on results.
- Thin delegations with no logic of their own are not modelled:
  - `readSettingAsForm`, `UserPermission`, `Email`, `Enum`, `OptionList`, `Action`, `LocalizedStringArray`, `String`, `RemoteWebService`, `Password`, `NamedPasswords`, `Long`, `LocalizedString`, `File`, `Certificate` and `PrivateKey`;
  - `isDefaultValue`, `getEventLogLocalDBLevel`, `getPasswordProfileIDs`, `getChallengeProfileIDs`, `getKnownLocales`, `getKnownLocaleFlagMap`, `getTemplate`, `getDomainID`, `getAppConfig`, `getStoredConfiguration`, `isDevDebugMode` and `configurationHash`;
  - `deprecatedSettingException`.
- The nine per-category profile getters (lines 470-513) are each `getProfileMap` of one definition, which `GetProfileMap` covers for every definition.
- `getResponseStorageLocations` and `getOtpSecretStorageLocations` (lines 298-306) are each `getGenericStorageLocations`, which `GenericStorageLocations` covers.
