/**
 * What the `DataCache` maps of a configuration must agree with, and how
 * each cache update keeps that agreement.
 */
module CacheInvariants {
  import opened Wrappers
  import opened Errors
  import opened Collections
  import opened Settings
  import opened Collaborators
  import opened LocalizedText

  /**
   * The localized-text cache agrees with the store: each entry holds what
   * its recorded (bundle, key) pair reads to, and the read log lists each
   * pair once, only pairs whose entry is cached.
   */
  ghost predicate TextCacheMatches(
    text: map<string, Option<LinkedMap<Locale, string>>>,
    source: map<string, (PwmLocaleBundle, string)>,
    readLog: seq<(PwmLocaleBundle, string)>,
    read: (PwmLocaleBundle, string) -> Option<seq<(string, string)>>,
    parse: string -> Locale)
  {
    && source.Keys == text.Keys
    && (forall key :: key in text ==>
          && CacheKey(source[key].0, source[key].1) == key
          && text[key] == LocalizedBundle(read(source[key].0, source[key].1), parse))
    && NoDuplicates(readLog)
    && (forall i :: 0 <= i < |readLog| ==> CacheKey(readLog[i].0, readLog[i].1) in text)
  }

  /** A cached entry is the one the looked-up pair itself reads to: distinct pairs never share a key. */
  lemma TextCacheHit(
    text: map<string, Option<LinkedMap<Locale, string>>>,
    source: map<string, (PwmLocaleBundle, string)>,
    readLog: seq<(PwmLocaleBundle, string)>,
    read: (PwmLocaleBundle, string) -> Option<seq<(string, string)>>,
    parse: string -> Locale,
    bundle: PwmLocaleBundle, keyName: string)
    requires TextCacheMatches(text, source, readLog, read, parse) && CacheKey(bundle, keyName) in text
    ensures text[CacheKey(bundle, keyName)] == LocalizedBundle(read(bundle, keyName), parse)
  {
    var origin := source[CacheKey(bundle, keyName)];
    CacheKeyInjective(origin.0, origin.1, bundle, keyName);
  }

  /** Caching a missed pair's value and logging its read keeps the cache in agreement with the store. */
  lemma TextCacheAdd(
    text: map<string, Option<LinkedMap<Locale, string>>>,
    source: map<string, (PwmLocaleBundle, string)>,
    readLog: seq<(PwmLocaleBundle, string)>,
    read: (PwmLocaleBundle, string) -> Option<seq<(string, string)>>,
    parse: string -> Locale,
    bundle: PwmLocaleBundle, keyName: string, value: Option<LinkedMap<Locale, string>>)
    requires TextCacheMatches(text, source, readLog, read, parse) && CacheKey(bundle, keyName) !in text
    requires value == LocalizedBundle(read(bundle, keyName), parse)
    ensures TextCacheMatches(
      text[CacheKey(bundle, keyName) := value],
      source[CacheKey(bundle, keyName) := (bundle, keyName)],
      readLog + [(bundle, keyName)], read, parse)
  {
    var key := CacheKey(bundle, keyName);
    var text' := text[key := value];
    var source' := source[key := (bundle, keyName)];
    var readLog' := readLog + [(bundle, keyName)];
    forall k | k in text'
      ensures CacheKey(source'[k].0, source'[k].1) == k
      ensures text'[k] == LocalizedBundle(read(source'[k].0, source'[k].1), parse)
    {
      if k != key {
        assert source'[k] == source[k] && text'[k] == text[k];
      }
    }
    forall i | 0 <= i < |readLog|
      ensures readLog[i] != (bundle, keyName) && readLog'[i] == readLog[i]
    {
      assert CacheKey(readLog[i].0, readLog[i].1) in text;
    }
    assert forall i :: 0 <= i < |readLog'| ==> CacheKey(readLog'[i].0, readLog'[i].1) in text';
  }

  /**
   * The policy cache agrees with policy creation: each cached policy is the
   * one its profile and locale create, and the creation log lists each pair
   * once, only pairs that are cached.
   */
  ghost predicate PolicyCacheMatches(
    cache: map<string, map<Locale, PwmPasswordPolicy>>,
    created: seq<(string, Locale)>,
    create: (string, Locale) -> Result<PwmPasswordPolicy, Exception>)
  {
    && (forall profile, locale :: profile in cache && locale in cache[profile] ==>
          create(profile, locale) == Success(cache[profile][locale]))
    && NoDuplicates(created)
    && (forall i :: 0 <= i < |created| ==> created[i].0 in cache && created[i].1 in cache[created[i].0])
  }

  /** Adding an empty inner map for a new profile keeps the agreement. */
  lemma PolicyCacheAddProfile(
    cache: map<string, map<Locale, PwmPasswordPolicy>>,
    created: seq<(string, Locale)>,
    create: (string, Locale) -> Result<PwmPasswordPolicy, Exception>,
    profile: string)
    requires PolicyCacheMatches(cache, created, create) && profile !in cache
    ensures PolicyCacheMatches(cache[profile := map[]], created, create)
  {
    var cache' := cache[profile := map[]];
    forall i | 0 <= i < |created|
      ensures created[i].0 in cache' && created[i].1 in cache'[created[i].0]
    {
      assert created[i].0 in cache && created[i].1 in cache[created[i].0];
    }
  }

  /** Caching a newly created policy and logging its creation keeps the agreement. */
  lemma PolicyCacheAddPolicy(
    cache: map<string, map<Locale, PwmPasswordPolicy>>,
    created: seq<(string, Locale)>,
    create: (string, Locale) -> Result<PwmPasswordPolicy, Exception>,
    profile: string, locale: Locale)
    requires PolicyCacheMatches(cache, created, create)
    requires profile in cache && locale !in cache[profile] && create(profile, locale).Success?
    ensures PolicyCacheMatches(
      cache[profile := cache[profile][locale := create(profile, locale).value]],
      created + [(profile, locale)], create)
  {
    var cache' := cache[profile := cache[profile][locale := create(profile, locale).value]];
    var created' := created + [(profile, locale)];
    forall i | 0 <= i < |created|
      ensures created[i] != (profile, locale)
    {
      assert created[i].1 in cache[created[i].0];
    }
    forall i | 0 <= i < |created'|
      ensures created'[i].0 in cache' && created'[i].1 in cache'[created'[i].0]
    {
      if i < |created| {
        assert created'[i] == created[i];
      }
    }
  }
}
