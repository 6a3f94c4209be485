/**
 * Identifiers of the configuration schema: settings, application
 * properties, profile definitions, locale bundles and the keys of the
 * store's modification snapshot.
 */
module Settings {
  import opened Wrappers
  import opened Collections

  /** The settings the facade reads by name; every other setting is `OtherSetting`. */
  datatype PwmSetting =
    | PWM_SECURITY_KEY
    | DATABASE_CLASS
    | DATABASE_URL
    | DATABASE_USERNAME
    | DATABASE_PASSWORD
    | TOKEN_STORAGEMETHOD
    | CERTIFICATE_VALIDATION_MODE
    | PEOPLE_SEARCH_ENABLE_PUBLIC
    | PEOPLE_SEARCH_PUBLIC_PROFILE
    | OtherSetting(key: string)

  /** An application property, named by its property key. */
  datatype AppProperty = AppProperty(key: string)

  const SECURITY_CONFIG_MIN_SECURITY_KEY_LENGTH: AppProperty := AppProperty("security.config.minSecurityKeyLength")

  /** The profile categories the facade builds profile maps for; any other is `OtherDefinition`. */
  datatype ProfileDefinition =
    | LdapProfile
    | NewUser
    | ActivateUser
    | Helpdesk
    | EmailServers
    | PeopleSearch
    | PeopleSearchPublic
    | SetupOTPProfile
    | UpdateAttributes
    | ChangePassword
    | ForgottenPassword
    | OtherDefinition(name: string)
  {
    function Name(): string {
      match this
      case LdapProfile => "LdapProfile"
      case NewUser => "NewUser"
      case ActivateUser => "ActivateUser"
      case Helpdesk => "Helpdesk"
      case EmailServers => "EmailServers"
      case PeopleSearch => "PeopleSearch"
      case PeopleSearchPublic => "PeopleSearchPublic"
      case SetupOTPProfile => "SetupOTPProfile"
      case UpdateAttributes => "UpdateAttributes"
      case ChangePassword => "ChangePassword"
      case ForgottenPassword => "ForgottenPassword"
      case OtherDefinition(n) => n
    }
  }

  /** The name of a Java enum constant: an identifier, so it never contains a dash. */
  type ConstantName = s: string | '-' !in s witness "DISPLAY"

  /** A `PwmLocaleBundle` constant, known by the name its `toString()` gives. */
  datatype PwmLocaleBundle = PwmLocaleBundle(name: ConstantName)

  datatype RecordType = SETTING | LOCALE_BUNDLE | PROPERTY

  /** A key of the store's "modified items" snapshot. */
  datatype StoredConfigItemKey =
    | SettingItem(setting: PwmSetting, profileID: Option<string>)
    | LocaleBundleItem(bundle: PwmLocaleBundle, keyName: string)
    | PropertyItem(property: string)
  {
    function GetRecordType(): RecordType {
      match this
      case SettingItem(_, _) => SETTING
      case LocaleBundleItem(_, _) => LOCALE_BUNDLE
      case PropertyItem(_) => PROPERTY
    }
  }

  /** The settings the `SETTING` items name, item by item, repeats included. */
  function SettingRecords(items: seq<StoredConfigItemKey>): (r: seq<PwmSetting>)
    ensures |r| <= |items|
    decreases |items|
  {
    if items == [] then []
    else
      var last := items[|items| - 1];
      SettingRecords(items[..|items| - 1]) + if last.GetRecordType() == SETTING then [last.setting] else []
  }

  /** A setting is recorded exactly when some `SETTING` item, of any profile, names it. */
  lemma {:induction false} SettingRecordsMembership(items: seq<StoredConfigItemKey>, s: PwmSetting)
    ensures s in SettingRecords(items) <==> exists profileID :: SettingItem(s, profileID) in items
    decreases |items|
  {
    if items != [] {
      var p := items[..|items| - 1];
      var last := items[|items| - 1];
      assert items == p + [last];
      SettingRecordsMembership(p, s);
      if exists profileID :: SettingItem(s, profileID) in items {
        var profileID :| SettingItem(s, profileID) in items;
        if SettingItem(s, profileID) != last {
          assert SettingItem(s, profileID) in p;
        }
      }
    }
  }

  /** The collected set holds a setting exactly when a modified `SETTING` item names it; each setting appears once. */
  lemma NonDefaultSettingsMembership(items: seq<StoredConfigItemKey>, s: PwmSetting)
    ensures s in Distinct(SettingRecords(items)) <==> exists profileID :: SettingItem(s, profileID) in items
    ensures NoDuplicates(Distinct(SettingRecords(items)))
  {
    SettingRecordsMembership(items, s);
  }
}
