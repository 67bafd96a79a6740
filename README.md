# Pray Time: locale logic and the reminder flow

A Dafny model of the only logic in the Pray Time React Native screen
(`App.js`): its bilingual translation table, the choice of the active locale
at start-up and by the language toggle, and the "remind me to pray" handler.
That handler asks the platform for notification permission. It records the
answer. On anything other than exactly `"granted"` it shows the
permission-needed alert. Otherwise it schedules one notification 60 seconds
ahead and then shows a confirmation.

- `wrappers.dfy` — `Option`, for JavaScript's `null`/`undefined`.
- `translations.dfy` (module `Translations`) — the closed set of 13 message
  keys with the property names they are stored under, the `es` and `en`
  tables as total functions from keys to the source's strings, and
  `Translate`, the lookup `i18n.t` performs. A locale is a plain string. For a locale other than `es`/`en`,
  the lookup result is the library's own fallback. It is kept symbolic as
  `Fallback(locale, key)`.
- `locales.dfy` (module `Locales`) — the start-up locale (`InitialLocale`)
  and the toggle's next locale (`NextLocale`).
- `app.dfy` (module `App`) — the class `Screen`. It holds the global
  `i18n.locale`, the component state `currentLocale` and `permissionStatus`,
  and an effect log. The platform calls, the status update and the alerts
  are appended to that log in order. `FlowEffects(status, locale)` is the
  specification of one press: the effects the handler produces when the
  platform answers `status` and `locale` is active. `Screen` keeps an
  invariant across presses: one permission request per answer, and one
  scheduled notification per `"granted"` answer.

The model follows the code as written:

- The start-up locale is whatever language code the device reports first,
  not clamped to `es`/`en`. A French device starts in `"fr"`, not in `es`.
- The toggle does not simply flip between two values. It yields `en` from
  any locale that starts with `"es"`, and `es` from anything else.
- The permission status is any string. Only the exact string `"granted"`
  leads to scheduling.
- There is no guard against a second press. The model runs each press as
  one complete step, so presses that overlap while a platform call is
  pending are not modelled (see "## Left out").

## Model

| member | source | states |
|---|---|---|
| `Translations.Spanish` | App.js:9-23 | the `es` table has an entry for every one of the 13 keys, and every entry is non-empty |
| `Translations.English` | App.js:24-38 | the `en` table has an entry for every one of the same 13 keys, and every entry is non-empty |
| `Translations.NameHasKey` | App.js:9-22 | every property name of the table is the name of one of the 13 message keys |
| `Translations.KeyInNames` | App.js:9-22 | every message key is one of the table's property names |
| `Translations.KeyNameInjective` | App.js:9-22 | distinct message keys are stored under distinct property names; with `KeyInNames` and `NameHasKey` the 13 keys and the 13 names correspond one to one |
| `Translations.Translate` | App.js:42-43 | `es` and `en` give their bundled, non-empty entry for the key; any other locale gives the symbolic `Fallback(locale, key)` |
| `Locales.InitialLocale` | App.js:44 | the start-up locale is never empty; it is the first device locale's language code when that exists and is non-empty; any result other than `es` is that code |
| `Locales.NoDeviceLanguageStartsInSpanish` | App.js:44 | with no device locale, or a missing or empty language code, the app starts in `es` and shows the Spanish copy |
| `Locales.EnglishDeviceStartsInEnglish` | App.js:44 | a device reporting `en` starts in `en`; the remind button reads "Remind me to pray" |
| `Locales.UnbundledDeviceLanguageIsKept` | App.js:44 | a device reporting `fr` starts in `fr`, not clamped to `es`; lookups use the library fallback; the first toggle goes to `es` |
| `Locales.StartsWith` | App.js:81 | JavaScript `startsWith`: the string is at least as long as the prefix and agrees with it at every position of the prefix |
| `Locales.StartsWithIffConcat` | App.js:81 | a string starts with a prefix exactly when it is that prefix followed by some rest |
| `Locales.BundledPrefixes` | App.js:81 | `"es"` starts with `"es"` and `"en"` does not |
| `Locales.NextLocale` | App.js:81 | the next locale is always `es` or `en` and always differs from the current one; it is `en` exactly when the current locale starts with `"es"` |
| `Locales.NextLocaleInvolution` | App.js:81 | toggling twice returns to the start value if and only if the start value is `es` or `en` |
| `Locales.ToggleTwiceKeepsText` | App.js:80-84 | from `es` or `en`, toggling twice shows every key in its original text |
| `App.Screen.constructor` | App.js:56-57 | at start-up `i18n.locale` and `currentLocale` both equal the start-up locale; there is no permission status yet; the log is empty |
| `App.Screen.ToggleLanguage` | App.js:80-84 | `i18n.locale` and `currentLocale` both become the next locale of the old `currentLocale`; status and log are unchanged; the invariant is kept |
| `App.Screen.AskPermissionAndSchedule` | App.js:59-78 | `permissionStatus` becomes the platform's answer, whatever it is; the locales are unchanged; the log grows by exactly the effects of one press in the active locale; the invariant is kept (one request per answer, one schedule per `"granted"` answer) |
| `App.FlowKeepsCounts` | App.js:59-78 | one more press adds one permission request, and adds a scheduled notification exactly when the answer is `"granted"` |
| `App.Screen.Valid` | App.js:59-78 | the screen's invariant implies it has never scheduled more notifications than it has requested permission for |
| `App.FlowEffects` | App.js:59-78 | one press, whatever the answer, ends with exactly one alert, and no earlier effect is an alert |
| `App.TestReminder` | App.js:68-75 | the scheduled call carries, in `es` or `en`, a bundled non-empty title and body; in any other locale both are the library fallback |
| `App.ReadyAlert` | App.js:77 | in `es` or `en` the confirmation's title and message are bundled and non-empty; otherwise both are the library fallback |
| `App.NeedPermissionAlert` | App.js:64 | in `es` or `en` the permission-needed alert's title and message are bundled and non-empty; otherwise both are the library fallback; it is never the confirmation |
| `App.FlowStartsWithRequest` | App.js:60-61 | every press first requests permission, then records the returned status; it makes exactly one permission request |
| `App.FlowSchedulesIffGranted` | App.js:63-75 | a press makes exactly one schedule call when the status is exactly `"granted"`, and none otherwise |
| `App.DeniedOnlyAlerts` | App.js:63-65 | on any other status, the only effect after recording it is one `needPerm`/`needPermBody` alert in the active locale; nothing is scheduled |
| `App.GrantedSchedulesThenConfirms` | App.js:68-77 | on `"granted"`, the status is followed by the schedule call (title `t('notifTitle')` and body `t('notifBody')` in the active locale, no sound, 60-second trigger) and then the `ready`/`readyBody` alert |
| `App.ReadyOnlyAfterSchedule` | App.js:63-77 | wherever the `ready`/`readyBody` confirmation appears, the status was `"granted"` and the entry just before it is the schedule call |
| `App.NoReadyWithoutGrant` | App.js:63-66 | when the status is not `"granted"`, the confirmation never appears |

## Left out

- Rendering and layout (App.js:86-111) and the style sheet (App.js:113-186). These are presentation only. This includes showing `permissionStatus` beside the `status` label.
- The notification handler configuration (App.js:47-53). It is a constant callback handed to the notification library.
- What the i18n library returns for a locale other than `es` and `en` under `fallbacks = true`. It is the library's own logic. Such a lookup is the symbolic value `Fallback(locale, key)`.
- `Translations.Translate`: the model does not decide whether `Fallback(locale, key)` equals a bundled string. With fallbacks on, the library may answer a `fr` lookup from its default locale, which is English unless configured otherwise.
- Lookup of a key outside the 13 used ones. Keys are a closed datatype, so the library's missing-translation text never arises.
- The platform's permission prompt, the notification scheduler and the alert dialogs. The permission answer is a parameter. The other calls are entries in the effect log.
- The two `await` suspension points. A language toggle that happens while the permission prompt or the schedule call is still pending is not modelled. The model uses the locale active when the press begins for all the texts of that press.
- `App.Screen.AskPermissionAndSchedule`: it runs a whole press as one atomic step, which acts like the single-flight guard the source does not have. Overlapping presses are not modelled. In the source their effects interleave (request, request, record, ...), and `permissionStatus` ends with whichever answer arrives last, not necessarily the last press's. The per-press block `FlowEffects` in the log holds only because of the atomic step.
- `App.Screen.AskPermissionAndSchedule`: a rejected `requestPermissionsAsync` is not modelled. In the source the press then records no status and shows no alert.
- A rejected `scheduleNotificationAsync`. In the source it only skips the confirmation. The model treats every schedule call as accepted.
- Any daily or user-chosen schedule. The source has none; it has only the fixed 60-second test trigger.
