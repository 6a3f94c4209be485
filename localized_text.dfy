/**
 * The localized-text lookup behind `readLocalizedBundle`: the cache key of a
 * (bundle, key) pair and the locale-to-text map built from the store's entries.
 */
module LocalizedText {
  import opened Wrappers
  import opened Collections
  import opened Settings
  import opened Collaborators

  /** The cache key: the bundle's name, a dash, then the text key. */
  function CacheKey(bundle: PwmLocaleBundle, keyName: string): string {
    bundle.name + "-" + keyName
  }

  /** Bundle names never contain a dash, so distinct (bundle, key) pairs never share a cache entry. */
  lemma CacheKeyInjective(b1: PwmLocaleBundle, k1: string, b2: PwmLocaleBundle, k2: string)
    requires CacheKey(b1, k1) == CacheKey(b2, k2)
    ensures b1 == b2 && k1 == k2
  {
    var key := CacheKey(b1, k1);
    var n1, n2 := b1.name, b2.name;
    assert key[|n1|] == '-' && key[|n2|] == '-';
    assert forall j :: 0 <= j < |n1| ==> key[j] == n1[j] && key[j] != '-';
    assert forall j :: 0 <= j < |n2| ==> key[j] == n2[j] && key[j] != '-';
    assert |n1| == |n2|;
    assert n1 == key[..|n1|] == n2;
    assert k1 == key[|n1| + 1..] == k2;
  }

  /** The locale tag of every entry, in entry order. */
  function LocaleTags(entries: seq<(string, string)>): (tags: seq<string>)
    ensures |tags| == |entries|
    ensures forall i :: 0 <= i < |entries| ==> tags[i] == entries[i].0
  {
    if entries == [] then []
    else LocaleTags(entries[..|entries| - 1]) + [entries[|entries| - 1].0]
  }

  /** The locale every tag parses to, in order. */
  function ParsedLocales(tags: seq<string>, parse: string -> Locale): (locales: seq<Locale>)
    ensures |locales| == |tags|
    ensures forall i :: 0 <= i < |tags| ==> locales[i] == parse(tags[i])
  {
    if tags == [] then []
    else ParsedLocales(tags[..|tags| - 1], parse) + [parse(tags[|tags| - 1])]
  }

  /** The `LinkedHashMap` the entries give when each is put under its parsed locale, in order. */
  function LocalizedMap(entries: seq<(string, string)>, parse: string -> Locale): (m: LinkedMap<Locale, string>)
    ensures m.Valid()
    decreases |entries|
  {
    if entries == [] then EmptyLinkedMap()
    else
      var last := entries[|entries| - 1];
      LocalizedMap(entries[..|entries| - 1], parse).Put(parse(last.0), last.1)
  }

  /** What a lookup yields: nothing for an absent or empty stored map, else the locale map. */
  function LocalizedBundle(stored: Option<seq<(string, string)>>, parse: string -> Locale): (r: Option<LinkedMap<Locale, string>>)
    ensures r.None? <==> stored.None? || stored.value == []
    ensures r.Some? ==> r.value.Valid() && r.value == LocalizedMap(stored.value, parse)
  {
    if stored.None? || stored.value == [] then None else Some(LocalizedMap(stored.value, parse))
  }

  /** The map's locales are the parsed locales of the entries, each once, in first-occurrence order. */
  lemma {:induction false} LocalizedMapLocales(entries: seq<(string, string)>, parse: string -> Locale)
    ensures LocalizedMap(entries, parse).order == Distinct(ParsedLocales(LocaleTags(entries), parse))
    decreases |entries|
  {
    if entries != [] {
      var p := entries[..|entries| - 1];
      var last := entries[|entries| - 1];
      LocalizedMapLocales(p, parse);
      assert LocaleTags(entries) == LocaleTags(p) + [last.0];
      assert LocaleTags(entries)[..|entries| - 1] == LocaleTags(p);
      PutOrder(LocalizedMap(p, parse), ParsedLocales(LocaleTags(p), parse), parse(last.0), last.1);
    }
  }

  /** An entry's text is stored under its locale unless a later entry has the same locale. */
  lemma {:induction false} LocalizedMapText(entries: seq<(string, string)>, parse: string -> Locale, i: nat)
    requires i < |entries|
    requires forall j :: i < j < |entries| ==> parse(entries[j].0) != parse(entries[i].0)
    ensures LocalizedMap(entries, parse).Get(parse(entries[i].0)) == Some(entries[i].1)
    decreases |entries|
  {
    var p := entries[..|entries| - 1];
    if i < |entries| - 1 {
      LocalizedMapText(p, parse, i);
    }
  }

  /** Entries whose parsed locales are pairwise distinct have different locales. */
  lemma {:induction false} DistinctLocalesDiffer(entries: seq<(string, string)>, parse: string -> Locale, i: nat, j: nat)
    requires NoDuplicates(ParsedLocales(LocaleTags(entries), parse)) && i < j < |entries|
    ensures parse(entries[j].0) != parse(entries[i].0)
  {
    var tags := LocaleTags(entries);
    var locales := ParsedLocales(tags, parse);
    assert locales[i] != locales[j];
    assert locales[i] == parse(tags[i]) && tags[i] == entries[i].0;
    assert locales[j] == parse(tags[j]) && tags[j] == entries[j].0;
  }

  /** With pairwise distinct locales, no entry after the i-th shares its locale. */
  lemma {:induction false} LaterLocalesDiffer(entries: seq<(string, string)>, parse: string -> Locale, i: nat)
    requires NoDuplicates(ParsedLocales(LocaleTags(entries), parse)) && i < |entries|
    ensures forall j :: i < j < |entries| ==> parse(entries[j].0) != parse(entries[i].0)
  {
    forall j | i < j < |entries|
      ensures parse(entries[j].0) != parse(entries[i].0)
    {
      DistinctLocalesDiffer(entries, parse, i, j);
    }
  }

  /** When no two entries parse to the same locale, every entry's text is found under its locale. */
  lemma {:induction false} LocalizedMapTexts(entries: seq<(string, string)>, parse: string -> Locale, i: nat)
    requires NoDuplicates(ParsedLocales(LocaleTags(entries), parse)) && i < |entries|
    ensures LocalizedMap(entries, parse).Get(parse(entries[i].0)) == Some(entries[i].1)
  {
    LaterLocalesDiffer(entries, parse, i);
    LocalizedMapText(entries, parse, i);
  }
}
