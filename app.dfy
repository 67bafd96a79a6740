/**
 * The screen's state and its two handlers: the language toggle and the
 * permission-then-schedule flow.
 *
 * The platform's permission answer is an input; the calls the flow makes to
 * the platform (permission prompt, notification scheduling, alert dialogs)
 * and the recording of the returned status are entries appended, in order, to
 * an effect log.
 */
module App {
  import opened Wrappers
  import opened Translations
  import opened Locales

  /** The only status value the flow treats as permission. */
  const Granted: string := "granted"

  /** Delay, in seconds, of the one-shot test reminder. */
  const TestDelaySeconds: nat := 60

  /** The `content` handed to the scheduler; `sound` is JavaScript `null` here. */
  datatype NotificationContent = NotificationContent(title: Text, body: Text, sound: Option<string>)

  /** The scheduler's `trigger`: fire once, this many seconds from now. */
  datatype Trigger = Trigger(seconds: nat)

  datatype Effect =
    | RequestPermission                                  // requestPermissionsAsync()
    | RecordStatus(status: string)                       // setPermissionStatus(status)
    | Schedule(content: NotificationContent, trigger: Trigger)  // scheduleNotificationAsync(...)
    | Alert(title: Text, message: Text)                  // Alert.alert(title, message)

  /** What kind of call an effect is, for counting them. */
  datatype Kind = RequestKind | RecordKind | ScheduleKind | AlertKind

  function KindOf(e: Effect): Kind {
    match e
    case RequestPermission => RequestKind
    case RecordStatus(_) => RecordKind
    case Schedule(_, _) => ScheduleKind
    case Alert(_, _) => AlertKind
  }

  /** The reminder the granted path schedules, in the given locale. */
  function TestReminder(locale: Locale): (e: Effect)
    ensures e.Schedule?
    ensures Supported(locale) ==>
              && e.content.title.Localized? && e.content.title.text != ""
              && e.content.body.Localized? && e.content.body.text != ""
    ensures !Supported(locale) ==> e.content.title.Fallback? && e.content.body.Fallback?
  {
    Schedule(NotificationContent(Translate(locale, NotifTitle), Translate(locale, NotifBody), None),
             Trigger(TestDelaySeconds))
  }

  /** The confirmation shown once the reminder has been handed to the scheduler. */
  function ReadyAlert(locale: Locale): (e: Effect)
    ensures e.Alert?
    ensures Supported(locale) ==> e.title.Localized? && e.title.text != "" && e.message.Localized? && e.message.text != ""
    ensures !Supported(locale) ==> e.title.Fallback? && e.message.Fallback?
  {
    Alert(Translate(locale, Ready), Translate(locale, ReadyBody))
  }

  /** The alert shown when permission is not granted. */
  function NeedPermissionAlert(locale: Locale): (e: Effect)
    ensures e.Alert?
    ensures Supported(locale) ==> e.title.Localized? && e.title.text != "" && e.message.Localized? && e.message.text != ""
    ensures !Supported(locale) ==> e.title.Fallback? && e.message.Fallback?
    ensures e != ReadyAlert(locale)
  {
    Alert(Translate(locale, NeedPerm), Translate(locale, NeedPermBody))
  }

  /**
   * Everything one press of the remind button does, in order, when the
   * platform answers `status` and `locale` is the active locale. Whatever
   * the answer, a press ends with exactly one alert, and nothing before it is
   * an alert.
   */
  function FlowEffects(status: string, locale: Locale): (r: seq<Effect>)
    ensures |r| > 0 && r[|r| - 1].Alert?
    ensures forall i :: 0 <= i < |r| - 1 ==> !r[i].Alert?
  {
    if status != Granted then
      [RequestPermission, RecordStatus(status), NeedPermissionAlert(locale)]
    else
      [RequestPermission, RecordStatus(status), TestReminder(locale), ReadyAlert(locale)]
  }

  /** The number of entries of `log` of kind `k`. */
  function Count(log: seq<Effect>, k: Kind): nat {
    if log == [] then 0 else (if KindOf(log[0]) == k then 1 else 0) + Count(log[1..], k)
  }

  /** Counting distributes over appending to the log. */
  lemma {:induction false} CountAppend(a: seq<Effect>, b: seq<Effect>, k: Kind)
    ensures Count(a + b, k) == Count(a, k) + Count(b, k)
  {
    if a == [] {
      assert a + b == b;
    } else {
      assert (a + b)[1..] == a[1..] + b;
      CountAppend(a[1..], b, k);
    }
  }

  /** Counting a log that starts with `e`. */
  lemma CountCons(e: Effect, rest: seq<Effect>, k: Kind)
    ensures Count([e] + rest, k) == (if KindOf(e) == k then 1 else 0) + Count(rest, k)
  {
  }

  /** The effects of a press after the request and the recorded answer: the branch on the answer. */
  lemma FlowSplits(status: string, locale: Locale, k: Kind)
    ensures |FlowEffects(status, locale)| >= 3
    ensures FlowEffects(status, locale)[..2] == [RequestPermission, RecordStatus(status)]
    ensures Count(FlowEffects(status, locale), k) ==
              (if k == RequestKind || k == RecordKind then 1 else 0) + Count(FlowEffects(status, locale)[2..], k)
  {
  }

  /** Every press starts with the permission request and then records the answer, and requests once. */
  lemma FlowStartsWithRequest(status: string, locale: Locale)
    ensures |FlowEffects(status, locale)| >= 3
    ensures FlowEffects(status, locale)[0] == RequestPermission
    ensures FlowEffects(status, locale)[1] == RecordStatus(status)
    ensures Count(FlowEffects(status, locale), RequestKind) == 1
  {
    var r := FlowEffects(status, locale);
    FlowSplits(status, locale, RequestKind);
    assert r[..2][0] == r[0] && r[..2][1] == r[1];
    if status != Granted {
      CountCons(NeedPermissionAlert(locale), [], RequestKind);
      assert r[2..] == [NeedPermissionAlert(locale)] + [];
    } else {
      CountCons(ReadyAlert(locale), [], RequestKind);
      CountCons(TestReminder(locale), [ReadyAlert(locale)], RequestKind);
      assert r[2..] == [TestReminder(locale)] + [ReadyAlert(locale)];
    }
  }

  /** A press schedules a notification exactly when the status is exactly "granted". */
  lemma FlowSchedulesIffGranted(status: string, locale: Locale)
    ensures Count(FlowEffects(status, locale), ScheduleKind) == if status == Granted then 1 else 0
  {
    var r := FlowEffects(status, locale);
    FlowSplits(status, locale, ScheduleKind);
    if status != Granted {
      CountCons(NeedPermissionAlert(locale), [], ScheduleKind);
      assert r[2..] == [NeedPermissionAlert(locale)] + [];
    } else {
      CountCons(ReadyAlert(locale), [], ScheduleKind);
      CountCons(TestReminder(locale), [ReadyAlert(locale)], ScheduleKind);
      assert r[2..] == [TestReminder(locale)] + [ReadyAlert(locale)];
    }
  }

  /** On any other status the only effect after recording it is the permission-needed alert. */
  lemma DeniedOnlyAlerts(status: string, locale: Locale)
    requires status != Granted
    ensures FlowEffects(status, locale)[2..] == [NeedPermissionAlert(locale)]
    ensures forall e :: e in FlowEffects(status, locale) ==> !e.Schedule?
  {
  }

  /**
   * On "granted" the third effect is the one schedule call, with the
   * notification title and body in the active locale and a 60-second trigger,
   * and the last is the confirmation.
   */
  lemma GrantedSchedulesThenConfirms(locale: Locale)
    ensures FlowEffects(Granted, locale)[2..] == [TestReminder(locale), ReadyAlert(locale)]
    ensures FlowEffects(Granted, locale)[2].content.title == Translate(locale, NotifTitle)
    ensures FlowEffects(Granted, locale)[2].content.body == Translate(locale, NotifBody)
    ensures FlowEffects(Granted, locale)[2].content.sound == None
    ensures FlowEffects(Granted, locale)[2].trigger == Trigger(60)
  {
  }

  /** The confirmation appears only on the granted path, and only after the schedule call. */
  lemma ReadyOnlyAfterSchedule(status: string, locale: Locale, i: nat)
    requires i < |FlowEffects(status, locale)| && FlowEffects(status, locale)[i] == ReadyAlert(locale)
    ensures status == Granted
    ensures 0 < i && FlowEffects(status, locale)[i - 1].Schedule?
  {
  }

  /** On any status other than "granted" the confirmation is never shown. */
  lemma NoReadyWithoutGrant(status: string, locale: Locale)
    requires status != Granted
    ensures ReadyAlert(locale) !in FlowEffects(status, locale)
  {
  }

  /**
   * The screen: the module-global `i18n.locale`, the component's
   * `currentLocale` and `permissionStatus` state, and the log of effects.
   */
  class Screen {
    var i18nLocale: Locale
    var currentLocale: Locale
    var permissionStatus: Option<string>
    var effects: seq<Effect>
    /** Every status the platform has answered so far, oldest first. */
    ghost var answers: seq<string>

    /**
     * Both locale holders agree; the shown status is the latest answer; the
     * log holds one permission request per answer and one scheduled
     * notification per "granted" answer. Hence the screen never schedules
     * more notifications than it has asked permission for.
     */
    ghost predicate Valid()
      reads this
      ensures Valid() ==> Count(effects, ScheduleKind) <= Count(effects, RequestKind)
    {
      && i18nLocale == currentLocale
      && permissionStatus == (if answers == [] then None else Some(answers[|answers| - 1]))
      && Count(effects, RequestKind) == |answers|
      && Count(effects, ScheduleKind) == GrantedCount(answers)
    }

    /** Module load and first render: both locales from the device, no status yet, nothing done. */
    constructor (device: seq<DeviceLocale>)
      ensures Valid()
      ensures i18nLocale == InitialLocale(device) && currentLocale == InitialLocale(device)
      ensures permissionStatus == None && effects == [] && answers == []
    {
      i18nLocale := InitialLocale(device);
      currentLocale := i18nLocale;
      permissionStatus := None;
      effects := [];
      answers := [];
    }

    /** `toggleLanguage`: both locale holders move to the next locale; nothing else changes. */
    method ToggleLanguage()
      requires Valid()
      modifies this
      ensures Valid()
      ensures i18nLocale == NextLocale(old(currentLocale)) && currentLocale == NextLocale(old(currentLocale))
      ensures permissionStatus == old(permissionStatus) && effects == old(effects) && answers == old(answers)
    {
      var next := NextLocale(currentLocale);
      i18nLocale := next;
      currentLocale := next;
    }

    /**
     * `askPermissionAndSchedule`, with `status` the platform's answer to the
     * permission request. There is no guard against a second press.
     */
    method AskPermissionAndSchedule(status: string)
      requires Valid()
      modifies this
      ensures Valid()
      ensures permissionStatus == Some(status) && answers == old(answers) + [status]
      ensures i18nLocale == old(i18nLocale) && currentLocale == old(currentLocale)
      ensures effects == old(effects) + FlowEffects(status, old(i18nLocale))
    {
      ghost var before := effects;
      // The calls this press makes, in order; they join the log once the press completes.
      var log := effects + [RequestPermission];
      permissionStatus := Some(status);
      log := log + [RecordStatus(status)];
      if status != Granted {
        log := log + [NeedPermissionAlert(i18nLocale)];
      } else {
        log := log + [TestReminder(i18nLocale)];
        log := log + [ReadyAlert(i18nLocale)];
      }
      assert log == before + FlowEffects(status, i18nLocale);
      effects := log;
      answers := answers + [status];
      FlowKeepsCounts(before, old(answers), status, i18nLocale);
    }
  }

  /** One press keeps the log's counts in step with the answers received. */
  lemma FlowKeepsCounts(log: seq<Effect>, answers: seq<string>, status: string, locale: Locale)
    requires Count(log, RequestKind) == |answers| && Count(log, ScheduleKind) == GrantedCount(answers)
    ensures Count(log + FlowEffects(status, locale), RequestKind) == |answers + [status]|
    ensures Count(log + FlowEffects(status, locale), ScheduleKind) == GrantedCount(answers + [status])
  {
    CountAppend(log, FlowEffects(status, locale), RequestKind);
    CountAppend(log, FlowEffects(status, locale), ScheduleKind);
    FlowStartsWithRequest(status, locale);
    FlowSchedulesIffGranted(status, locale);
    GrantedCountAppend(answers, status);
  }

  /** The number of answers that are exactly "granted". */
  function GrantedCount(answers: seq<string>): (n: nat)
    ensures n <= |answers|
  {
    if answers == [] then 0
    else GrantedCount(answers[..|answers| - 1]) + (if answers[|answers| - 1] == Granted then 1 else 0)
  }

  /** One more answer adds one to the count exactly when it is "granted". */
  lemma GrantedCountAppend(answers: seq<string>, status: string)
    ensures GrantedCount(answers + [status]) == GrantedCount(answers) + (if status == Granted then 1 else 0)
  {
  }
}
