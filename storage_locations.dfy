/**
 * Parsing of a dash-separated storage-location setting into the list of
 * `DataStorageMethod`s it names.
 */
module StorageLocationSettings {
  import opened Wrappers
  import opened JavaLang
  import opened Options

  /** The tokens that name a storage method, decoded, in token order; every other token is skipped. */
  function KnownStorageMethods(tokens: seq<string>): (r: seq<DataStorageMethod>)
    ensures |r| <= |tokens|
    decreases |tokens|
  {
    if tokens == [] then []
    else
      KnownStorageMethods(tokens[..|tokens| - 1]) +
        match DataStorageMethod.ValueOf(tokens[|tokens| - 1])
        case Some(m) => [m]
        case None => []
  }

  /** The storage methods a setting's text names. */
  function StorageLocations(setting: string): seq<DataStorageMethod> {
    KnownStorageMethods(JavaSplit(setting, '-'))
  }

  lemma {:induction false} KnownStorageMethodsAppend(a: seq<string>, b: seq<string>)
    ensures KnownStorageMethods(a + b) == KnownStorageMethods(a) + KnownStorageMethods(b)
    decreases |b|
  {
    if b == [] {
      assert a + b == a;
    } else {
      var b' := b[..|b| - 1];
      assert (a + b)[..|a + b| - 1] == a + b';
      KnownStorageMethodsAppend(a, b');
    }
  }

  /** Dropping trailing empty tokens, as `split` does, never changes which methods are found. */
  lemma {:induction false} KnownStorageMethodsIgnoreTrailingEmpty(parts: seq<string>)
    ensures KnownStorageMethods(StripTrailingEmpty(parts)) == KnownStorageMethods(parts)
    decreases |parts|
  {
    if parts != [] && parts[|parts| - 1] == "" {
      KnownStorageMethodsIgnoreTrailingEmpty(parts[..|parts| - 1]);
    }
  }

  /** The result is the known methods among ALL dash-separated pieces of the text, empty ones included. */
  lemma StorageLocationsOfPieces(setting: string)
    ensures StorageLocations(setting) == KnownStorageMethods(SplitOn(setting, '-'))
  {
    if '-' !in setting {
      SplitOnWithoutSeparator(setting, '-');
    } else {
      KnownStorageMethodsIgnoreTrailingEmpty(SplitOn(setting, '-'));
    }
  }

  lemma {:induction false} KnownStorageMethodsMembership(tokens: seq<string>, m: DataStorageMethod)
    ensures m in KnownStorageMethods(tokens) <==> m.Name() in tokens
    decreases |tokens|
  {
    if tokens != [] {
      var p := tokens[..|tokens| - 1];
      assert tokens == p + [tokens[|tokens| - 1]];
      KnownStorageMethodsMembership(p, m);
    }
  }

  /** A method is in the result exactly when one of the dash-separated pieces is its name. */
  lemma StorageLocationsMembership(setting: string, m: DataStorageMethod)
    ensures m in StorageLocations(setting) <==> m.Name() in SplitOn(setting, '-')
  {
    StorageLocationsOfPieces(setting);
    KnownStorageMethodsMembership(SplitOn(setting, '-'), m);
  }

  function Names(ms: seq<DataStorageMethod>): (names: seq<string>)
    ensures |names| == |ms|
    ensures forall i :: 0 <= i < |names| ==> names[i] == ms[i].Name()
  {
    if ms == [] then [] else Names(ms[..|ms| - 1]) + [ms[|ms| - 1].Name()]
  }

  lemma {:induction false} KnownStorageMethodsOfNames(ms: seq<DataStorageMethod>)
    ensures KnownStorageMethods(Names(ms)) == ms
    decreases |ms|
  {
    if ms != [] {
      var p := ms[..|ms| - 1];
      assert Names(ms)[..|ms| - 1] == Names(p);
      KnownStorageMethodsOfNames(p);
      DataStorageMethodValueOfName(ms[|ms| - 1]);
      assert ms == p + [ms[|ms| - 1]];
    }
  }

  /** Writing methods out with dashes and reading the text back gives the same list. */
  lemma StorageLocationsRoundTrip(ms: seq<DataStorageMethod>)
    ensures StorageLocations(Join(Names(ms), '-')) == ms
  {
    var names := Names(ms);
    KnownStorageMethodsOfNames(ms);
    if ms == [] {
      assert JavaSplit("", '-') == [""];
    } else {
      var text := Join(names, '-');
      assert forall i :: 0 <= i < |names| ==> '-' !in names[i];
      SplitOnJoin(names, '-');
      StorageLocationsOfPieces(text);
      assert StorageLocations(text) == KnownStorageMethods(names);
    }
  }

  lemma ExampleSplit()
    ensures SplitOn("LDAP-DB-UNKNOWNX", '-') == ["LDAP", "DB", "UNKNOWNX"]
  {
    var tokens := ["LDAP", "DB", "UNKNOWNX"];
    assert Join(tokens, '-') == "LDAP-DB-UNKNOWNX" by {
      assert tokens[1..] == ["DB", "UNKNOWNX"];
      assert tokens[1..][1..] == ["UNKNOWNX"];
    }
    assert forall i :: 0 <= i < |tokens| ==> '-' !in tokens[i];
    SplitOnJoin(tokens, '-');
  }

  lemma ExampleTokens()
    ensures KnownStorageMethods(["LDAP", "DB", "UNKNOWNX"]) == [LDAP, DB]
  {
    var tokens := ["LDAP", "DB", "UNKNOWNX"];
    DataStorageMethodValueOfName(LDAP);
    DataStorageMethodValueOfName(DB);
    assert DataStorageMethod.ValueOf("UNKNOWNX") == None;
    assert tokens[..2] == ["LDAP", "DB"] && tokens[..2][..1] == ["LDAP"];
  }

  /** Unknown tokens are dropped: "LDAP-DB-UNKNOWNX" names exactly LDAP and DB. */
  lemma StorageLocationsDropUnknown()
    ensures StorageLocations("LDAP-DB-UNKNOWNX") == [LDAP, DB]
  {
    var text := "LDAP-DB-UNKNOWNX";
    ExampleSplit();
    ExampleTokens();
    StorageLocationsOfPieces(text);
  }
}
