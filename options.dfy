/**
 * The option enumerations whose constants the facade decodes from stored
 * text. `ValueOf` is Java's `Enum.valueOf`: the constant whose name is
 * exactly the given text, and none otherwise.
 */
module Options {
  import opened Wrappers

  /** Where responses and one-time-password secrets are stored. */
  datatype DataStorageMethod = AUTO | LDAP | LOCALDB | DB | NMAS | NMASUAWS {

    function Name(): (n: string)
      ensures n != [] && '-' !in n
    {
      match this
      case AUTO => "AUTO"
      case LDAP => "LDAP"
      case LOCALDB => "LOCALDB"
      case DB => "DB"
      case NMAS => "NMAS"
      case NMASUAWS => "NMASUAWS"
    }

    static function ValueOf(name: string): (r: Option<DataStorageMethod>)
      ensures r.Some? ==> r.value.Name() == name
      ensures r.None? ==> forall m: DataStorageMethod :: m.Name() != name
    {
      if name == "AUTO" then Some(AUTO)
      else if name == "LDAP" then Some(LDAP)
      else if name == "LOCALDB" then Some(LOCALDB)
      else if name == "DB" then Some(DB)
      else if name == "NMAS" then Some(NMAS)
      else if name == "NMASUAWS" then Some(NMASUAWS)
      else None
    }
  }

  /** `valueOf(name())` gives back the constant. */
  lemma DataStorageMethodValueOfName(m: DataStorageMethod)
    ensures DataStorageMethod.ValueOf(m.Name()) == Some(m)
  {
    match m
    case AUTO =>
    case LDAP =>
    case LOCALDB =>
    case DB =>
    case NMAS =>
    case NMASUAWS =>
  }

  /** Where issued tokens are kept. */
  datatype TokenStorageMethod = STORE_LOCALDB | STORE_DB | STORE_CRYPTO | STORE_LDAP {

    function Name(): string {
      match this
      case STORE_LOCALDB => "STORE_LOCALDB"
      case STORE_DB => "STORE_DB"
      case STORE_CRYPTO => "STORE_CRYPTO"
      case STORE_LDAP => "STORE_LDAP"
    }

    static function ValueOf(name: string): (r: Option<TokenStorageMethod>)
      ensures r.Some? ==> r.value.Name() == name
      ensures r.None? ==> forall m: TokenStorageMethod :: m.Name() != name
    {
      if name == "STORE_LOCALDB" then Some(STORE_LOCALDB)
      else if name == "STORE_DB" then Some(STORE_DB)
      else if name == "STORE_CRYPTO" then Some(STORE_CRYPTO)
      else if name == "STORE_LDAP" then Some(STORE_LDAP)
      else None
    }
  }

  /** How a presented certificate is matched against the configured ones. */
  datatype CertificateMatchingMode = CERTIFICATE_CHAIN | CA_ONLY {

    function Name(): string {
      match this
      case CERTIFICATE_CHAIN => "CERTIFICATE_CHAIN"
      case CA_ONLY => "CA_ONLY"
    }

    static function ValueOf(name: string): (r: Option<CertificateMatchingMode>)
      ensures r.Some? ==> r.value.Name() == name
      ensures r.None? ==> forall m: CertificateMatchingMode :: m.Name() != name
    {
      if name == "CERTIFICATE_CHAIN" then Some(CERTIFICATE_CHAIN)
      else if name == "CA_ONLY" then Some(CA_ONLY)
      else None
    }
  }
}
