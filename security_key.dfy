/**
 * The rules by which the facade turns the configured security-key secret
 * into key material.
 */
module SecurityKeys {
  import opened Wrappers
  import opened Errors
  import opened JavaLang
  import opened Collaborators

  /** Length of the ephemeral secret generated when no key is configured. */
  const TEMP_KEY_LENGTH: nat := 1024

  predicate IsAlphaNumeric(c: char) {
    ('A' <= c <= 'Z') || ('a' <= c <= 'z') || ('0' <= c <= '9')
  }

  /** What `PwmRandom.alphaNumericString(1024)` returns. */
  type RandomAlphaNumeric = s: string | |s| == TEMP_KEY_LENGTH && forall i :: 0 <= i < |s| ==> IsAlphaNumeric(s[i])
    witness seq(1024, _ => 'a')

  /** No key is configured: the setting is absent or its text is empty. */
  predicate Unconfigured(configValue: Option<PasswordData>) {
    configValue.None? || configValue.value.stringValue == ""
  }

  /**
   * A configured secret, checked against the minimum length read from the
   * application property `minLengthProperty` and then handed to the key
   * constructor `newKey`.
   */
  function ConfiguredSecurityKey(
    secret: string, minLengthProperty: string, newKey: string -> Result<PwmSecurityKey, Exception>
  ): (r: Result<PwmSecurityKey, Exception>)
    ensures r.Success? <==>
      ParseInt(minLengthProperty).Some? && Utf16Length(secret) >= ParseInt(minLengthProperty).value && newKey(secret).Success?
    ensures r.Success? ==> r == newKey(secret)
    ensures ParseInt(minLengthProperty).None? ==> r.Failure? && r.error.NumberFormatException?
    ensures ParseInt(minLengthProperty).Some? && r.Failure? ==> r.error.IsUnrecoverable(ERROR_INVALID_SECURITY_KEY)
  {
    match ParseInt(minLengthProperty)
    case None => Failure(NumberFormatException("For input string: \"" + minLengthProperty + "\""))
    case Some(minLength) =>
      if Utf16Length(secret) < minLength then
        Failure(PwmUnrecoverableException(ErrorInformation(
          ERROR_INVALID_SECURITY_KEY, "Security Key must be greater than 32 characters in length")))
      else
        match newKey(secret)
        case Success(key) => Success(key)
        case Failure(e) =>
          Failure(PwmUnrecoverableException(ErrorInformation(
            ERROR_INVALID_SECURITY_KEY, "unexpected error generating Security Key crypto: " + e.Message())))
  }

  /** A secret shorter than the minimum is a fatal invalid-key error, whatever the key constructor would do. */
  lemma ShortSecretIsFatal(secret: string, minLength: nat, newKey: string -> Result<PwmSecurityKey, Exception>)
    requires minLength <= INT_MAX && Utf16Length(secret) < minLength
    ensures ConfiguredSecurityKey(secret, DecimalString(minLength), newKey).Failure?
    ensures ConfiguredSecurityKey(secret, DecimalString(minLength), newKey).error.IsUnrecoverable(ERROR_INVALID_SECURITY_KEY)
  {
    ParseIntOfDecimal(minLength);
  }

  /** The bound is strict: a secret of exactly the minimum length is accepted. */
  lemma SecretOfMinimumLengthAccepted(secret: string, newKey: string -> Result<PwmSecurityKey, Exception>)
    requires Utf16Length(secret) <= INT_MAX && newKey(secret).Success?
    ensures ConfiguredSecurityKey(secret, DecimalString(Utf16Length(secret)), newKey) == newKey(secret)
  {
    ParseIntOfDecimal(Utf16Length(secret));
  }

  /** A constructor failure is re-raised as an invalid-key error that carries the cause's message. */
  lemma ConstructionFailureWrapped(secret: string, minLength: nat, newKey: string -> Result<PwmSecurityKey, Exception>)
    requires minLength <= Utf16Length(secret) && minLength <= INT_MAX && newKey(secret).Failure?
    ensures ConfiguredSecurityKey(secret, DecimalString(minLength), newKey) ==
      Failure(PwmUnrecoverableException(ErrorInformation(
        ERROR_INVALID_SECURITY_KEY, "unexpected error generating Security Key crypto: " + newKey(secret).error.Message())))
  {
    ParseIntOfDecimal(minLength);
  }

  /** The shipped minimum, "32", parses to 32. */
  lemma DefaultMinimumParses()
    ensures ParseInt("32") == Some(32)
  {
    assert DecimalString(3) == ['3'];
    assert DecimalString(32) == ['3', '2'];
    ParseIntOfDecimal(32);
  }

  /** The default policy: with a minimum of 32, a 31-character secret fails and a 40-character one is built. */
  lemma DefaultMinimumLength(short: string, long: string, newKey: string -> Result<PwmSecurityKey, Exception>)
    requires |short| == 31 && |long| == 40 && newKey(long).Success?
    requires forall i :: 0 <= i < |short| ==> (short[i] as int) < 0x1_0000
    requires forall i :: 0 <= i < |long| ==> (long[i] as int) < 0x1_0000
    ensures ConfiguredSecurityKey(short, "32", newKey).Failure?
    ensures ConfiguredSecurityKey(short, "32", newKey).error.IsUnrecoverable(ERROR_INVALID_SECURITY_KEY)
    ensures ConfiguredSecurityKey(long, "32", newKey) == newKey(long)
  {
    Utf16LengthOfBmp(short);
    Utf16LengthOfBmp(long);
    DefaultMinimumParses();
  }
}
