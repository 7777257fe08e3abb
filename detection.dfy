/** The locale bootstrap: the localization state created at start-up and
    the one-shot routine that maps the visitor's country code to a locale
    and switches the active locale to it. The geolocation request is not
    part of the model: its outcome arrives as an optional country code. */
module Detection {
  import opened Wrappers
  import opened Catalog

  // ---------------------------------------------------------------------
  // Lower-casing (ASCII case folding)

  predicate IsUpper(c: char)
  {
    'A' <= c <= 'Z'
  }

  /** Folds one ASCII upper-case letter to lower case; any other character
      is kept. */
  function LowerChar(c: char): (d: char)
    ensures !IsUpper(d)
  {
    if IsUpper(c) then (c as int + 32) as char else c
  }

  /** The country code as `toLowerCase` leaves it, for ASCII input. */
  function ToLower(s: string): (r: string)
    ensures |r| == |s|
    ensures forall i :: 0 <= i < |r| ==> !IsUpper(r[i])
  {
    if s == [] then [] else [LowerChar(s[0])] + ToLower(s[1..])
  }

  /** Lower-casing a second time changes nothing. */
  lemma {:induction false} ToLowerIdempotent(s: string)
    ensures ToLower(ToLower(s)) == ToLower(s)
  {
    if s != [] {
      ToLowerIdempotent(s[1..]);
      assert ToLower(s)[1..] == ToLower(s[1..]);
    }
  }

  /** The characters that lower-case to `c`: a lower-case letter and its
      capital, nothing for a capital, and only itself for anything else. */
  function Preimages(c: char): (p: set<char>)
  {
    if 'a' <= c <= 'z' then {c, (c as int - 32) as char}
    else if IsUpper(c) then {}
    else {c}
  }

  lemma PreimagesExact(x: char, c: char)
    ensures x in Preimages(c) <==> LowerChar(x) == c
  {
  }

  /** Every spelling of `s` in any mix of cases: the strings that
      lower-case to `s`, built character by character. */
  function Spellings(s: string): (r: set<string>)
  {
    if s == [] then {[]}
    else set x, t | x in Preimages(s[0]) && t in Spellings(s[1..]) :: [x] + t
  }

  /** `Spellings` is exactly the set of strings whose lower-case form is
      `s`, so it is an independent description of case-insensitive
      comparison. */
  lemma {:induction false} SpellingsExact(s: string, t: string)
    ensures t in Spellings(s) <==> ToLower(t) == s
  {
    if s != [] && t != [] {
      SpellingsExact(s[1..], t[1..]);
      PreimagesExact(t[0], s[0]);
      assert t == [t[0]] + t[1..];
      if ToLower(t) == s {
        assert ToLower(t[1..]) == s[1..];
      }
    } else if s != [] {
      assert t !in Spellings(s);
    }
  }

  // ---------------------------------------------------------------------
  // Country code to locale

  /** The locale chosen for a country code: Japanese for Japan, Chinese
      for mainland China, Taiwan and Hong Kong, English for everything
      else; the comparison ignores case. */
  function ResolveLocale(countryCode: string): (l: Locale)
    ensures l != En ==> |countryCode| == 2
  {
    var code := ToLower(countryCode);
    if code == "jp" then Ja
    else if code in ["cn", "tw", "hk"] then Zh
    else En
  }

  /** The decision described through spellings rather than through
      lower-casing: which codes, in whatever case, select each locale. */
  lemma ResolveBySpelling(countryCode: string)
    ensures ResolveLocale(countryCode) == Ja <==> countryCode in Spellings("jp")
    ensures ResolveLocale(countryCode) == Zh <==>
              countryCode in Spellings("cn") + Spellings("tw") + Spellings("hk")
    ensures ResolveLocale(countryCode) == En <==>
              countryCode !in Spellings("jp") + Spellings("cn") + Spellings("tw") + Spellings("hk")
  {
    SpellingsExact("jp", countryCode);
    SpellingsExact("cn", countryCode);
    SpellingsExact("tw", countryCode);
    SpellingsExact("hk", countryCode);
  }

  /** Codes that agree after lower-casing select the same locale. */
  lemma ResolveIgnoresCase(a: string, b: string)
    requires ToLower(a) == ToLower(b)
    ensures ResolveLocale(a) == ResolveLocale(b)
  {
  }

  /** Lower-casing a code first does not change the decision. */
  lemma ResolveOfLowered(countryCode: string)
    ensures ResolveLocale(ToLower(countryCode)) == ResolveLocale(countryCode)
  {
    ToLowerIdempotent(countryCode);
  }

  /** The decision on representative codes, in lower and upper case. */
  lemma ResolveExamples()
    ensures ResolveLocale("jp") == Ja && ResolveLocale("JP") == Ja && ResolveLocale("Jp") == Ja
    ensures ResolveLocale("cn") == Zh && ResolveLocale("CN") == Zh
    ensures ResolveLocale("tw") == Zh && ResolveLocale("TW") == Zh
    ensures ResolveLocale("hk") == Zh && ResolveLocale("HK") == Zh
    ensures ResolveLocale("us") == En && ResolveLocale("de") == En && ResolveLocale("") == En
    ensures ResolveLocale("jpn") == En && ResolveLocale("zh") == En && ResolveLocale("ja") == En
  {
    assert ToLower("cn") == "cn" && ToLower("CN") == "cn";
    assert ToLower("tw") == "tw" && ToLower("TW") == "tw";
    assert ToLower("hk") == "hk" && ToLower("HK") == "hk";
  }

  // ---------------------------------------------------------------------
  // The localization state

  /** The localization provider's global state: the active locale, which
      the bootstrap may switch, beside the fixed fallback locale and
      catalog it was created with. */
  class I18n {
    var locale: Locale
    const fallbackLocale: Locale
    const messages: map<string, Tree>
    /** How many times the active locale has been assigned. */
    ghost var writes: nat

    /** The catalog is the application's, and both configured locales
        have a tree in it. */
    ghost predicate Valid()
      reads this
    {
      messages == Messages && locale.Code() in messages && fallbackLocale.Code() in messages
    }

    /** The provider as created at start-up: Chinese active, English as
        the fallback. */
    constructor ()
      ensures Valid()
      ensures locale == Zh && fallbackLocale == En && messages == Messages
      ensures writes == 0
    {
      locale := Zh;
      fallbackLocale := En;
      messages := Messages;
      writes := 0;
      CatalogLocales();
    }
  }

  /** The bootstrap routine. `countryCode` is the `country_code` field of
      the geolocation answer, or None when the request failed or the field
      was missing; a failure is absorbed and leaves the state as it was.
      On success the active locale becomes the resolved one, and it is
      assigned only when it differs from the current value. */
  method DetectAndUpdateLocale(i18n: I18n, countryCode: Option<string>)
    requires i18n.Valid()
    modifies i18n`locale, i18n`writes
    ensures i18n.Valid()
    ensures countryCode.None? ==> i18n.locale == old(i18n.locale)
    ensures countryCode.Some? ==> i18n.locale == ResolveLocale(countryCode.value)
    ensures i18n.writes == if i18n.locale == old(i18n.locale) then old(i18n.writes) else old(i18n.writes) + 1
  {
    match countryCode
    case None =>
    case Some(code) =>
      var target := ResolveLocale(code);
      if target != i18n.locale {
        i18n.locale := target;
        i18n.writes := i18n.writes + 1;
      }
  }

  /** Start-up as a whole: the provider is created, then the bootstrap
      runs once with the geolocation outcome. */
  method Startup(countryCode: Option<string>) returns (i18n: I18n)
    ensures fresh(i18n)
    ensures i18n.Valid() && i18n.fallbackLocale == En && i18n.messages == Messages
    ensures countryCode.None? ==> i18n.locale == Zh && i18n.writes == 0
    ensures countryCode.Some? ==> i18n.locale == ResolveLocale(countryCode.value)
    ensures i18n.writes == if i18n.locale == Zh then 0 else 1
  {
    i18n := new I18n();
    DetectAndUpdateLocale(i18n, countryCode);
  }

  /** Start-up scenarios: Japan switches to Japanese, the United States to
      English, Hong Kong keeps Chinese without a write, and a failed
      request keeps Chinese. */
  method StartupScenarios()
  {
    ResolveExamples();
    var a := Startup(Some("JP"));
    assert a.locale == Ja && a.writes == 1;
    var b := Startup(Some("us"));
    assert b.locale == En && b.writes == 1;
    var c := Startup(Some("hk"));
    assert c.locale == Zh && c.writes == 0;
    var d := Startup(None);
    assert d.locale == Zh && d.writes == 0;
  }
}
