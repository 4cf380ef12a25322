/**
  The city-name pipeline of `getCities`: every raw record name is trimmed,
  filtered by `isValidCity` and three exclusion terms, put in canonical case,
  and de-duplicated in order of first occurrence (src/handler.ts:59-63, 116-127).
 */
module CityNames {
  import opened Types
  import opened JsText
  import opened Seqs

  /** The character class `[a-zA-Z\s\-]`. */
  predicate AllowedChar(c: char) {
    IsAsciiLetter(c) || IsWhitespace(c) || c == '-'
  }

  /** `/[^a-zA-Z\s\-]/.test(s)` */
  predicate HasCharOutsideClass(s: string) {
    exists i :: 0 <= i < |s| && !AllowedChar(s[i])
  }

  /** `/^\s*$/.test(s)` */
  predicate IsBlank(s: string) {
    AllWhitespace(s)
  }

  /** `/^\d+$/.test(s)` */
  predicate IsAllDigits(s: string) {
    |s| > 0 && forall i :: 0 <= i < |s| ==> IsDigit(s[i])
  }

  /**
    `isValidCity`: an empty string is rejected, and so is any string that one of
    the three invalid patterns matches. The contract shows that the digits
    pattern never decides anything: the character class already rejects digits.
   */
  function IsValidCity(entry: string): (r: bool)
    ensures r <==> (forall i :: 0 <= i < |entry| ==> AllowedChar(entry[i])) && !AllWhitespace(entry)
  {
    entry != "" && !(HasCharOutsideClass(entry) || IsBlank(entry) || IsAllDigits(entry))
  }

  /** The predicate of the `filter` call, applied to an already trimmed name. */
  predicate PassesFilter(name: string) {
    && IsValidCity(name)
    && !ContainsIgnoreCase(name, "district")
    && !ContainsIgnoreCase(name, "station")
    && !ContainsIgnoreCase(name, "powerplant")
  }

  /** `name.charAt(0).toUpperCase() + name.slice(1).toLowerCase()` */
  function Canonical(name: string): string {
    if name == "" then "" else [UpperChar(name[0])] + ToLowerCase(name[1..])
  }

  /**
    The names handed to the `Set`, in order: `data.map(e => e.name.trim())`,
    then `.filter(...)`, then the canonical-case `map`.
   */
  function CanonicalSurvivors(raw: seq<string>): seq<string> {
    Chain(raw, Trim, PassesFilter, Canonical)
  }

  /** `uniqueCities` for the record names `raw`. */
  function UniqueCities(raw: seq<string>): seq<string> {
    Dedupe(CanonicalSurvivors(raw))
  }

  /** What the pipeline makes of one raw name: its canonical form, or nothing if it is dropped. */
  function Normalize(raw: string): Option<string> {
    Pick(raw, Trim, PassesFilter, Canonical)
  }

  // ---------------------------------------------------------------------------
  // The filter

  /**
    A raw name survives exactly when its trimmed form is not blank, uses only
    ASCII letters, white space and `-`, and contains none of the three
    exclusion terms in any letter case.
   */
  lemma FilterSpec(raw: string)
    ensures Normalize(raw).Some? <==>
      var t := Trim(raw);
      && t != ""
      && !AllWhitespace(t)
      && (forall i :: 0 <= i < |t| ==> AllowedChar(t[i]))
      && !Contains(AsciiLower(t), "district")
      && !Contains(AsciiLower(t), "station")
      && !Contains(AsciiLower(t), "powerplant")
    ensures Normalize(raw).Some? ==> Normalize(raw).value == Canonical(Trim(raw))
  {
  }

  /** A raw name with a digit anywhere in it never survives. */
  lemma DigitsRejected(raw: string, k: nat)
    requires k < |raw| && IsDigit(raw[k])
    ensures Normalize(raw) == None
  {
    var lead, trail := TrimSplits(raw);
    var t := Trim(raw);
    assert raw == lead + t + trail;
    if |lead| <= k < |lead| + |t| {
      assert raw[k] == t[k - |lead|];
      assert !AllowedChar(t[k - |lead|]);
    }
  }

  // ---------------------------------------------------------------------------
  // Canonical case

  /** Changing the case of an allowed character keeps it allowed, and keeps it white space or not. */
  lemma CaseMapsKeepClass(c: char)
    requires AllowedChar(c)
    ensures AllowedChar(UpperChar(c)) && AllowedChar(LowerChar(c))
    ensures IsWhitespace(UpperChar(c)) == IsWhitespace(c) == IsWhitespace(LowerChar(c))
    ensures AsciiLowerChar(UpperChar(c)) == AsciiLowerChar(c) == AsciiLowerChar(LowerChar(c))
  {
    if IsWhitespace(c) {
      assert !IsAsciiLetter(c);
    }
  }

  /** Character `i` of the canonical form. */
  lemma CanonicalAt(name: string, i: nat)
    requires i < |name|
    ensures |Canonical(name)| == |name|
    ensures Canonical(name)[i] == if i == 0 then UpperChar(name[0]) else LowerChar(name[i])
  {
  }

  /** Putting a name in canonical case twice changes nothing more. */
  lemma CanonicalIdempotent(name: string)
    ensures Canonical(Canonical(name)) == Canonical(name)
  {
    if name != "" {
      var c := Canonical(name);
      assert c[1..] == ToLowerCase(name[1..]);
      ToLowerCaseIdempotent(name[1..]);
    }
  }

  /** The canonical form of a name lower-cases to the lower-cased name. */
  lemma CanonicalLowerCase(name: string)
    ensures ToLowerCase(Canonical(name)) == ToLowerCase(name)
  {
  }

  /** Canonical case keeps a trimmed surviving name a trimmed surviving name. */
  lemma CanonicalOfSurvivor(name: string)
    requires PassesFilter(name) && Trim(name) == name
    ensures PassesFilter(Canonical(name)) && Trim(Canonical(name)) == Canonical(name)
  {
    var c := Canonical(name);
    forall i | 0 <= i < |name|
      ensures |c| == |name| && AllowedChar(c[i]) && IsWhitespace(c[i]) == IsWhitespace(name[i])
      ensures AsciiLowerChar(c[i]) == AsciiLowerChar(name[i])
    {
      CanonicalAt(name, i);
      CaseMapsKeepClass(name[i]);
    }
    assert AsciiLower(c) == AsciiLower(name);
    var k :| 0 <= k < |name| && !IsWhitespace(name[k]);
    assert !IsWhitespace(c[k]);
    var _, _ := TrimSplits(name);
    TrimOfTrimmed(c);
  }

  /** Normalizing the normal form of a name gives that normal form again. */
  lemma NormalizeIdempotent(raw: string)
    requires Normalize(raw).Some?
    ensures Normalize(Normalize(raw).value) == Normalize(raw)
  {
    TrimIdempotent(raw);
    CanonicalOfSurvivor(Trim(raw));
    CanonicalIdempotent(Trim(raw));
  }

  /** Two allowed characters with the same lower-case form have the same upper-case form. */
  lemma UpperFromLower(x: char, y: char)
    requires AllowedChar(x) && AllowedChar(y) && LowerChar(x) == LowerChar(y)
    ensures UpperChar(x) == UpperChar(y)
  {
    assert x != KelvinSign && y != KelvinSign;
  }

  /**
    Two surviving names have the same canonical form exactly when they are
    the same text up to letter case.
   */
  lemma SameCanonicalIffSameLowerCase(a: string, b: string)
    requires PassesFilter(a) && PassesFilter(b)
    ensures Canonical(a) == Canonical(b) <==> ToLowerCase(a) == ToLowerCase(b)
  {
    if Canonical(a) == Canonical(b) {
      CanonicalLowerCase(a);
      CanonicalLowerCase(b);
    }
    if ToLowerCase(a) == ToLowerCase(b) {
      forall i | 0 <= i < |a|
        ensures |Canonical(a)| == |Canonical(b)| && Canonical(a)[i] == Canonical(b)[i]
      {
        CanonicalAt(a, i);
        CanonicalAt(b, i);
        assert LowerChar(a[i]) == ToLowerCase(a)[i] == ToLowerCase(b)[i] == LowerChar(b[i]);
        if i == 0 {
          UpperFromLower(a[0], b[0]);
        }
      }
    }
  }

  // ---------------------------------------------------------------------------
  // The whole chain

  /**
    `uniqueCities` holds each normal form of a raw name exactly once, and
    nothing else.
   */
  lemma UniqueCitiesMembers(raw: seq<string>)
    ensures NoDuplicates(UniqueCities(raw))
    ensures forall x :: x in UniqueCities(raw) <==> exists i :: 0 <= i < |raw| && Normalize(raw[i]) == Some(x)
  {
    forall x ensures x in UniqueCities(raw) <==> exists i :: 0 <= i < |raw| && Normalize(raw[i]) == Some(x) {
      ChainMembers(raw, Trim, PassesFilter, Canonical, x);
    }
  }

  /**
    `uniqueCities` lists the normal forms in the order in which they first
    occur among the raw names.
   */
  lemma UniqueCitiesOrder(raw: seq<string>, i: nat, j: nat)
    requires i < j < |UniqueCities(raw)|
    ensures Picks(raw, Trim, PassesFilter, Canonical, UniqueCities(raw)[i])
    ensures Picks(raw, Trim, PassesFilter, Canonical, UniqueCities(raw)[j])
    ensures FirstPick(raw, Trim, PassesFilter, Canonical, UniqueCities(raw)[i])
          < FirstPick(raw, Trim, PassesFilter, Canonical, UniqueCities(raw)[j])
  {
    var u := UniqueCities(raw);
    DedupeOrder(CanonicalSurvivors(raw));
    ChainOrder(raw, Trim, PassesFilter, Canonical, u[i], u[j]);
  }

  /** No two entries of `uniqueCities` are the same name up to letter case. */
  lemma UniqueCitiesCaseDistinct(raw: seq<string>, i: nat, j: nat)
    requires i < j < |UniqueCities(raw)|
    ensures ToLowerCase(UniqueCities(raw)[i]) != ToLowerCase(UniqueCities(raw)[j])
  {
    var u := UniqueCities(raw);
    UniqueCitiesMembers(raw);
    assert u[i] in u && u[j] in u;
    var ki :| 0 <= ki < |raw| && Normalize(raw[ki]) == Some(u[i]);
    var kj :| 0 <= kj < |raw| && Normalize(raw[kj]) == Some(u[j]);
    var a, b := Trim(raw[ki]), Trim(raw[kj]);
    TrimIdempotent(raw[ki]);
    TrimIdempotent(raw[kj]);
    CanonicalOfSurvivor(a);
    CanonicalOfSurvivor(b);
    CanonicalIdempotent(a);
    CanonicalIdempotent(b);
    SameCanonicalIffSameLowerCase(u[i], u[j]);
  }

  /** A name made of ASCII letters, already trimmed and free of exclusion terms, normalizes to its canonical form. */
  lemma PlainNameNormalizes(n: string)
    requires 0 < |n| < 7 && forall i :: 0 <= i < |n| ==> IsAsciiLetter(n[i])
    ensures Normalize(n) == Some(Canonical(n))
  {
    TrimOfTrimmed(n);
  }

  /** Three spellings of one city, as the pipeline sees each of them. */
  lemma WarsawSpelling(n: string)
    requires n == "Warsaw" || n == "warsaw" || n == "WARSAW"
    ensures Normalize(n) == Some("Warsaw")
  {
    PlainNameNormalizes(n);
    WarsawCanonical(n);
  }

  /** The canonical form of each of the three spellings. */
  lemma WarsawCanonical(n: string)
    requires n == "Warsaw" || n == "warsaw" || n == "WARSAW"
    ensures Canonical(n) == "Warsaw"
  {
    assert ToLowerCase(n[1..]) == "arsaw";
    assert [UpperChar(n[0])] == "W";
  }

  /** Names that all normalize to one city yield that city once. */
  lemma SameCityCollapses(raw: seq<string>, city: string)
    requires raw != [] && forall i :: 0 <= i < |raw| ==> Normalize(raw[i]) == Some(city)
    ensures UniqueCities(raw) == [city]
  {
    var n := seq(|raw|, i => city);
    ChainAllPicked(raw, Trim, PassesFilter, Canonical, n);
    DedupeConstant(n, city);
  }

  /** Survivors that differ only in letter case collapse to one entry. */
  lemma CaseVariantsCollapse()
    ensures UniqueCities(["Warsaw", "warsaw", "WARSAW"]) == ["Warsaw"]
  {
    var raw := ["Warsaw", "warsaw", "WARSAW"];
    forall i | 0 <= i < |raw| ensures Normalize(raw[i]) == Some("Warsaw") {
      WarsawSpelling(raw[i]);
    }
    SameCityCollapses(raw, "Warsaw");
  }

  /** A trimmed name that the filter rejects is dropped. */
  lemma RejectedNameDropped(n: string)
    requires n != [] && !IsWhitespace(n[0]) && !IsWhitespace(n[|n| - 1]) && !PassesFilter(n)
    ensures Normalize(n) == None
  {
    TrimOfTrimmed(n);
  }

  /** A trimmed name with a character outside the class is dropped. */
  lemma OutsideClassDropped(n: string, k: nat)
    requires k < |n| && !AllowedChar(n[k])
    requires !IsWhitespace(n[0]) && !IsWhitespace(n[|n| - 1])
    ensures Normalize(n) == None
  {
    RejectedNameDropped(n);
  }

  /** A trimmed name holding an exclusion term at position `k` is dropped. */
  lemma ExclusionTermDropped(n: string, term: string, k: nat)
    requires term == "district" || term == "station" || term == "powerplant"
    requires OccursAt(AsciiLower(n), term, k)
    requires n != [] && !IsWhitespace(n[0]) && !IsWhitespace(n[|n| - 1])
    ensures Normalize(n) == None
  {
    RejectedNameDropped(n);
  }

  /** A name with an exclusion term in other letter case is dropped. */
  lemma StationNameDropped(a: string)
    requires a == "Warsaw Station"
    ensures Normalize(a) == None
  {
    assert OccursAt(AsciiLower(a), "station", 7);
    ExclusionTermDropped(a, "station", 7);
  }

  /** Names with a letter outside ASCII are dropped, whatever else they hold. */
  lemma AccentedNamesDropped(b: string, c: string)
    requires b == "Krak\U{F3}w" && c == "krak\U{F3}w District"
    ensures Normalize(b) == None && Normalize(c) == None
  {
    OutsideClassDropped(b, 4);
    OutsideClassDropped(c, 4);
  }

  /** Records whose names are all dropped yield no city. */
  lemma NoneSurvive(raw: seq<string>)
    requires forall i :: 0 <= i < |raw| ==> Normalize(raw[i]) == None
    ensures UniqueCities(raw) == []
  {
    ChainNonePicked(raw, Trim, PassesFilter, Canonical);
  }
}
