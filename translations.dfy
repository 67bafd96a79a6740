/**
 * The static bilingual translation table of the Pray Time screen and the
 * lookup `i18n.t(key)` performed against the active locale.
 *
 * A locale is whatever language code the app holds (it is never clamped to
 * the two bundled languages). Only `es` and `en` have bundled strings; what
 * the i18n library returns for any other locale is its own fallback logic,
 * which this model keeps symbolic as `Fallback(locale, key)`.
 */
module Translations {

  /** A language code such as "es", "en" or "fr". */
  type Locale = string

  const Es: Locale := "es"
  const En: Locale := "en"

  /** The two locales that have a bundled table. */
  predicate Supported(locale: Locale) {
    locale == Es || locale == En
  }

  /** The closed set of message keys used by the screen. */
  datatype Key =
    | Title | Verse | Invite | Remind | Ready | ReadyBody | NeedPerm
    | NeedPermBody | NotifTitle | NotifBody | Status | Footer | ChangeLang

  /** The property name under which a key is stored in each locale's table. */
  function KeyName(k: Key): string {
    match k
    case Title => "title"
    case Verse => "verse"
    case Invite => "invite"
    case Remind => "remind"
    case Ready => "ready"
    case ReadyBody => "readyBody"
    case NeedPerm => "needPerm"
    case NeedPermBody => "needPermBody"
    case NotifTitle => "notifTitle"
    case NotifBody => "notifBody"
    case Status => "status"
    case Footer => "footer"
    case ChangeLang => "changeLang"
  }

  /** The property names both locale tables define. */
  const KeyNames: set<string> :=
    {"title", "verse", "invite", "remind", "ready", "readyBody", "needPerm",
     "needPermBody", "notifTitle", "notifBody", "status", "footer", "changeLang"}

  /** Every key is stored under one of `KeyNames`. */
  lemma KeyInNames(k: Key)
    ensures KeyName(k) in KeyNames
  {
  }

  /** Every name in `KeyNames` is the name of some key. */
  lemma NameHasKey(n: string)
    requires n in KeyNames
    ensures exists k: Key :: KeyName(k) == n
  {
    if n == "title" {
      assert KeyName(Title) == n;
    } else if n == "verse" {
      assert KeyName(Verse) == n;
    } else if n == "invite" {
      assert KeyName(Invite) == n;
    } else if n == "remind" {
      assert KeyName(Remind) == n;
    } else if n == "ready" {
      assert KeyName(Ready) == n;
    } else if n == "readyBody" {
      assert KeyName(ReadyBody) == n;
    } else if n == "needPerm" {
      assert KeyName(NeedPerm) == n;
    } else if n == "needPermBody" {
      assert KeyName(NeedPermBody) == n;
    } else if n == "notifTitle" {
      assert KeyName(NotifTitle) == n;
    } else if n == "notifBody" {
      assert KeyName(NotifBody) == n;
    } else if n == "status" {
      assert KeyName(Status) == n;
    } else if n == "footer" {
      assert KeyName(Footer) == n;
    } else {
      assert KeyName(ChangeLang) == n;
    }
  }

  /** Distinct keys are stored under distinct names. */
  lemma KeyNameInjective(a: Key, b: Key)
    requires KeyName(a) == KeyName(b)
    ensures a == b
  {
  }

  // The two tables of `i18n.translations`, entry for entry. Long entries are
  // written as concatenations at sentence boundaries: the same strings, in
  // pieces the verifier handles cheaply.

  /** The `es` table: every key has a non-empty entry. */
  function Spanish(k: Key): (s: string)
    ensures s != ""
  {
    match k
    case Title => "Pray Time"
    case Verse => "\U{201C}Ac\U{E9}rcate a Dios, " + "y \U{C9}l se acercar\U{E1} a ti.\U{201D} " + "(Santiago 4:8)"
    case Invite =>
      "Este es tu momento santo. " + "Respira. " + "Habla con tu Padre.\n"
      + "No performance. " + "No m\U{E1}scaras. " + "Solo t\U{FA} y \U{C9}l."
    case Remind => "Recordarme orar"
    case Ready => "Listo \U{1F64C}"
    case ReadyBody => "Te recordar\U{E9} orar " + "en 1 minuto como prueba.\n" + "Luego podr\U{E1}s escoger " + "tu horario fijo."
    case NeedPerm => "Permiso necesario"
    case NeedPermBody => "Para recordarte orar " + "necesito permiso " + "para notificaciones."
    case NotifTitle => "Es hora de orar \U{1F64F}"
    case NotifBody => "Respira. " + "Habla con Dios un momento."
    case Status => "Estado de notificaciones: "
    case Footer => "v0.0.1 \U{2014} " + "Ministerio de oraci\U{F3}n diaria"
    case ChangeLang => "Cambiar idioma"
  }

  /** The `en` table: every key has a non-empty entry. */
  function English(k: Key): (s: string)
    ensures s != ""
  {
    match k
    case Title => "Pray Time"
    case Verse => "\U{201C}Draw near to God, " + "and He will draw near to you.\U{201D} " + "(James 4:8)"
    case Invite =>
      "This is your holy moment. " + "Breathe. " + "Speak with your Father.\n"
      + "No performance. " + "No masks. " + "Just you and Him."
    case Remind => "Remind me to pray"
    case Ready => "Done \U{1F64C}"
    case ReadyBody => "I'll remind you to pray " + "in 1 minute as a test.\n" + "Later you can choose " + "a fixed schedule."
    case NeedPerm => "Permission required"
    case NeedPermBody => "I need notification permission " + "to remind you to pray."
    case NotifTitle => "It's time to pray \U{1F64F}"
    case NotifBody => "Breathe. " + "Talk with God for a moment."
    case Status => "Notification status: "
    case Footer => "v0.0.1 \U{2014} " + "Daily prayer ministry"
    case ChangeLang => "Change language"
  }

  /** What `i18n.t(key)` yields: a bundled string, or the library's unmodelled fallback. */
  datatype Text = Localized(text: string) | Fallback(locale: Locale, key: Key)

  /** `i18n.t(key)` with `i18n.locale == locale`. */
  function Translate(locale: Locale, key: Key): (r: Text)
    ensures Supported(locale) <==> r.Localized?
    ensures Supported(locale) ==> r.text != ""
    ensures !Supported(locale) ==> r == Fallback(locale, key)
  {
    if locale == Es then Localized(Spanish(key))
    else if locale == En then Localized(English(key))
    else Fallback(locale, key)
  }
}
