/**
 * Choosing the active locale: once at start-up from what the device reports,
 * and afterwards by the language toggle.
 */
module Locales {
  import opened Wrappers
  import opened Translations

  /** One entry of the device's preferred-locale list; only its language code is read. */
  datatype DeviceLocale = DeviceLocale(languageCode: Option<string>)

  /**
   * `getLocales()[0]?.languageCode || 'es'`: the first reported language code,
   * unless the list is empty or that code is missing or empty (all falsy in
   * JavaScript), in which case Spanish.
   */
  function InitialLocale(device: seq<DeviceLocale>): (r: Locale)
    ensures r != ""
    ensures |device| > 0 && device[0].languageCode.Some? && device[0].languageCode.value != "" ==>
              r == device[0].languageCode.value
    ensures r != Es ==> |device| > 0 && device[0].languageCode == Some(r)
  {
    if |device| > 0 && device[0].languageCode.Some? && device[0].languageCode.value != "" then
      device[0].languageCode.value
    else
      Es
  }

  /** JavaScript's `s.startsWith(prefix)`: `s` is `prefix` followed by something. */
  predicate StartsWith(s: string, prefix: string): (b: bool)
    ensures b <==> |prefix| <= |s| && forall i :: 0 <= i < |prefix| ==> s[i] == prefix[i]
  {
    |prefix| <= |s| && s[..|prefix|] == prefix
  }

  /** A string starts with `prefix` exactly when it is `prefix` followed by some rest. */
  lemma StartsWithIffConcat(s: string, prefix: string)
    ensures StartsWith(s, prefix) <==> exists rest :: s == prefix + rest
  {
    if StartsWith(s, prefix) {
      assert s == prefix + s[|prefix|..];
    }
  }

  /** "es" is a Spanish locale in the toggle's sense and "en" is not. */
  lemma BundledPrefixes()
    ensures StartsWith(Es, Es)
    ensures !StartsWith(En, Es)
  {
    assert En[..|Es|][1] != Es[1];
  }

  /** The locale the toggle switches to: English from anything Spanish, Spanish otherwise. */
  function NextLocale(current: Locale): (r: Locale)
    ensures Supported(r)
    ensures r != current
    ensures r == En <==> StartsWith(current, Es)
  {
    BundledPrefixes();
    if StartsWith(current, Es) then En else Es
  }

  /** Toggling twice returns to the start exactly for the two bundled locales. */
  lemma NextLocaleInvolution(current: Locale)
    ensures NextLocale(NextLocale(current)) == current <==> Supported(current)
  {
  }

  /** Toggling twice from a bundled locale shows every key in its original text. */
  lemma ToggleTwiceKeepsText(current: Locale, key: Key)
    requires Supported(current)
    ensures Translate(NextLocale(NextLocale(current)), key) == Translate(current, key)
  {
  }

  /** A device reporting English starts in English and shows the English copy. */
  lemma EnglishDeviceStartsInEnglish()
    ensures InitialLocale([DeviceLocale(Some("en"))]) == En
    ensures Translate(InitialLocale([DeviceLocale(Some("en"))]), Remind) == Localized("Remind me to pray")
  {
  }

  /** A device reporting no locale, or no language code, starts in Spanish. */
  lemma NoDeviceLanguageStartsInSpanish(device: seq<DeviceLocale>)
    requires |device| == 0 || device[0].languageCode == None || device[0].languageCode == Some("")
    ensures InitialLocale(device) == Es
    ensures Translate(InitialLocale(device), Remind) == Localized("Recordarme orar")
  {
  }

  /**
   * An unbundled device language is kept as the active locale, not replaced by
   * Spanish; its copy is then whatever the i18n library falls back to, and the
   * first toggle moves to Spanish.
   */
  lemma UnbundledDeviceLanguageIsKept()
    ensures InitialLocale([DeviceLocale(Some("fr"))]) == "fr"
    ensures Translate(InitialLocale([DeviceLocale(Some("fr"))]), Remind) == Fallback("fr", Remind)
    ensures NextLocale(InitialLocale([DeviceLocale(Some("fr"))])) == Es
  {
  }
}
