/**
 * Survey reminders (src/data/survey_notifications_storage.py): the
 * `notification_enabled` and `notification_time` columns of
 * `user_survey_preferences`. Times are stored in UTC as "HH:MM" and
 * converted with the user's whole-hour offset.
 */
module SurveyNotificationsStorage {
  import opened Base
  import opened Strings
  import opened Sorting
  import opened Db
  import opened SurveysStorage
  import opened FavoriteSurveysStorage

  // ---------------------------------------------------------------------
  // Time conversion

  /** `"%02d" % n`: two digits with a leading zero below 10, otherwise `str(n)`. */
  function Format02(n: int): string {
    if 0 <= n < 100 then Pad2(n) else IntToStr(n)
  }

  /** `int()` reads a formatted number back, and the text has no colon. */
  lemma Format02Reads(n: int)
    ensures ':' !in Format02(n) && ParseInt(Format02(n)) == Some(n)
  {
    if 0 <= n < 100 {
      Pad2Reads(n);
    } else {
      IntToStrReads(n);
    }
  }

  lemma Pad2Reads(n: int)
    requires 0 <= n < 100
    ensures ':' !in Pad2(n) && ParseInt(Pad2(n)) == Some(n)
  {
    ParseIntOfDigits(Pad2(n));
    DigitsValuePad2(n);
  }

  lemma IntToStrReads(n: int)
    ensures ':' !in IntToStr(n) && ParseInt(IntToStr(n)) == Some(n)
  {
    ParseIntOfIntToStr(n);
    var d := NatToStr(if n < 0 then -n else n);
    NoSepInDigits(d, ':');
    assert IntToStr(n) == if n < 0 then "-" + d else d;
  }

  /**
   * `hours, minutes = map(int, t.split(':'))`: exactly two pieces, each an
   * integer; anything else raises ValueError (`None`).
   */
  function HourMinute(t: string): Option<(int, int)> {
    var parts := Split(t, ':');
    if |parts| != 2 then None
    else
      var h, m := ParseInt(parts[0]), ParseInt(parts[1]);
      if h.None? || m.None? then None else Some((h.value, m.value))
  }

  /** Two separator-free integers around a colon read back as themselves. */
  lemma HourMinuteOf(a: string, b: string, x: int, y: int)
    requires ':' !in a && ':' !in b && ParseInt(a) == Some(x) && ParseInt(b) == Some(y)
    ensures HourMinute(a + ":" + b) == Some((x, y))
  {
    SplitConcat(a, b, ':');
    SplitNoSep(b, ':');
    assert Split(a + ":" + b, ':') == [a, b];
  }

  /** A time with a colon-free hour or minute piece that is not an integer is rejected. */
  lemma HourMinuteRejects(a: string, b: string)
    requires ':' !in a && ':' !in b && (ParseInt(a).None? || ParseInt(b).None?)
    ensures HourMinute(a + ":" + b).None?
  {
    SplitConcat(a, b, ':');
    SplitNoSep(b, ':');
    assert Split(a + ":" + b, ':') == [a, b];
  }

  /** `f"{hours:02d}:{minutes:02d}"` */
  function TimeText(hour: int, m: int): string {
    Format02(hour) + ":" + Format02(m)
  }

  /** The text of an hour of the day and any minutes reads back as them. */
  lemma TimeTextReads(hour: int, m: int)
    ensures HourMinute(TimeText(hour, m)) == Some((hour, m))
  {
    Format02Reads(hour);
    Format02Reads(m);
    HourMinuteOf(Format02(hour), Format02(m), hour, m);
  }

  /**
   * A parsed time with its hour moved by the offset, modulo 24, written
   * back as text: back by the offset towards UTC, forward from it.
   */
  function ShiftTime(hm: Option<(int, int)>, offset: int, toUtc: bool): Option<string> {
    if hm.None? then None
    else if toUtc then Some(TimeText((hm.value.0 - offset) % 24, hm.value.1))
    else Some(TimeText((hm.value.0 + offset) % 24, hm.value.1))
  }

  lemma ShiftTimeReads(h: int, m: int, offset: int)
    ensures ShiftTime(Some((h, m)), offset, true) == Some(TimeText((h - offset) % 24, m))
    ensures ShiftTime(Some((h, m)), offset, false) == Some(TimeText((h + offset) % 24, m))
  {
  }

  /** `_convert_time_to_utc(local_time, timezone_offset)`: the hour less the offset, modulo 24 (Python's `%` floors); ValueError (`None`) exactly when the time does not parse. */
  function ToUtc(localTime: string, offset: int): (r: Option<string>)
    ensures r.Some? <==> HourMinute(localTime).Some?
  {
    ShiftTime(HourMinute(localTime), offset, true)
  }

  /** `_convert_time_from_utc(utc_time, timezone_offset)`: the hour plus the offset, modulo 24; ValueError (`None`) exactly when the time does not parse. */
  function FromUtc(utcTime: string, offset: int): (r: Option<string>)
    ensures r.Some? <==> HourMinute(utcTime).Some?
  {
    ShiftTime(HourMinute(utcTime), offset, false)
  }

  /** The UTC time is the local hour minus the offset, modulo 24, with the same minutes. */
  lemma ToUtcReads(localTime: string, offset: int, h: int, m: int)
    requires HourMinute(localTime) == Some((h, m))
    ensures ToUtc(localTime, offset) == Some(TimeText((h - offset) % 24, m))
  {
    assert ToUtc(localTime, offset) == ShiftTime(Some((h, m)), offset, true);
    ShiftTimeReads(h, m, offset);
  }

  /** The local time is the UTC hour plus the offset, modulo 24, with the same minutes. */
  lemma FromUtcReads(utcTime: string, offset: int, h: int, m: int)
    requires HourMinute(utcTime) == Some((h, m))
    ensures FromUtc(utcTime, offset) == Some(TimeText((h + offset) % 24, m))
  {
    assert FromUtc(utcTime, offset) == ShiftTime(Some((h, m)), offset, false);
    ShiftTimeReads(h, m, offset);
  }

  /** A time of day written with two digits for the hour and for the minutes. */
  function Padded(h: nat, m: nat): string
    requires h < 100 && m < 100
  {
    Pad2(h) + ":" + Pad2(m)
  }

  lemma PaddedReads(h: nat, m: nat)
    requires h < 100 && m < 100
    ensures HourMinute(Padded(h, m)) == Some((h, m))
  {
    Pad2Reads(h);
    Pad2Reads(m);
    HourMinuteOf(Pad2(h), Pad2(m), h, m);
  }

  lemma PaddedIsText(h: nat, m: nat)
    requires h < 100 && m < 100
    ensures TimeText(h, m) == Padded(h, m)
  {
  }

  /** Converting a two-digit time to UTC gives the two-digit time of the shifted hour. */
  lemma ToUtcPadded(h: nat, m: nat, offset: int)
    requires h < 100 && m < 100
    ensures ToUtc(Padded(h, m), offset) == Some(Padded((h - offset) % 24, m))
  {
    PaddedReads(h, m);
    ToUtcReads(Padded(h, m), offset, h, m);
    PaddedIsText((h - offset) % 24, m);
  }

  /** Converting a two-digit UTC time back gives the two-digit time of the shifted hour. */
  lemma FromUtcPadded(h: nat, m: nat, offset: int)
    requires h < 100 && m < 100
    ensures FromUtc(Padded(h, m), offset) == Some(Padded((h + offset) % 24, m))
  {
    PaddedReads(h, m);
    FromUtcReads(Padded(h, m), offset, h, m);
    PaddedIsText((h + offset) % 24, m);
  }

  /** Going back by an offset and forward by it again is the identity modulo 24. */
  lemma HoursBack(h: int, offset: int)
    ensures ((h - offset) % 24 + offset) % 24 == (h - 0) % 24
  {
    var q := (h - offset) / 24;
    assert (h - offset) % 24 + offset == h + 24 * -q;
    ModShift(h, -q);
  }

  lemma ModShift(x: int, k: int)
    ensures (x + 24 * k) % 24 == (x - 0) % 24
  {
  }

  /**
   * A well-formed "HH:MM" time survives the round trip through UTC
   * unchanged, whatever the offset.
   */
  lemma UtcRoundTrip(h: nat, m: nat, offset: int)
    requires h < 24 && m < 60
    ensures ToUtc(Padded(h, m), offset).Some?
    ensures FromUtc(ToUtc(Padded(h, m), offset).value, offset) == Some(Padded(h, m))
  {
    ToUtcPadded(h, m, offset);
    BackFromUtc(h, m, offset);
  }

  lemma BackFromUtc(h: nat, m: nat, offset: int)
    requires h < 24 && m < 60
    ensures FromUtc(Padded((h - offset) % 24, m), offset) == Some(Padded(h, m))
  {
    var u := (h - offset) % 24;
    assert (u + offset) % 24 == h by {
      HoursBack(h, offset);
      HourOfDay(h);
    }
    FromUtcPadded(u, m, offset);
  }

  lemma HourOfDay(h: int)
    requires 0 <= h < 24
    ensures (h - 0) % 24 == h
  {
  }

  // ---------------------------------------------------------------------
  // set_survey_reminder / remove_survey_reminder

  /** A ValueError from the time conversion, which the storage code does not catch. */
  datatype TimeError = BadTime

  /**
   * The row `set_survey_reminder` leaves for (chat, template): the
   * reminder switched on at `utc`; an existing row keeps its favourite
   * flag, a new one gets the default.
   */
  function Reminder(prefs: seq<Preference>, chat: int, templateId: int, utc: string): (p: Preference)
    ensures PreferenceKey(p) == (chat, templateId)
    ensures p.notificationEnabled && p.notificationTime == Some(utc)
    ensures PreferenceOf(prefs, chat, templateId).Some? ==>
      p.isFavorite == PreferenceOf(prefs, chat, templateId).value.isFavorite
    ensures PreferenceOf(prefs, chat, templateId).None? ==> !p.isFavorite
  {
    match PreferenceOf(prefs, chat, templateId)
    case Some(row) => row.(notificationEnabled := true, notificationTime := Some(utc))
    case None => Preference(chat, templateId, false, true, Some(utc))
  }

  /**
   * `set_survey_reminder(conn, chat_id, template_id, notification_time,
   * timezone_offset)`: `False` for an unknown template or a database
   * error, the ValueError of a malformed time escapes, otherwise the
   * reminder is stored in UTC and nothing else changes.
   */
  method SetSurveyReminder(db: Database, chat: int, templateId: int, localTime: string, offset: int,
                           fault: bool) returns (r: Result<bool, TimeError>)
    requires db.Valid()
    modifies db
    ensures db.Valid()
    ensures r == Ok(true) <==> !fault && GetTemplateById(db, templateId).Some? && ToUtc(localTime, offset).Some?
    ensures r.Err? <==> !fault && GetTemplateById(db, templateId).Some? && ToUtc(localTime, offset).None?
    ensures r == Ok(true) ==> db.State() == old(db.State()).(
      preferences := Upsert(old(db.preferences),
                            Reminder(old(db.preferences), chat, templateId, ToUtc(localTime, offset).value)))
    ensures r == Ok(true) ==> PreferenceOf(db.preferences, chat, templateId).value.notificationTime
                              == ToUtc(localTime, offset)
    ensures r != Ok(true) ==> db.State() == old(db.State())
  {
    if fault || GetTemplateById(db, templateId).None? {
      return Ok(false);
    }
    var utc := ToUtc(localTime, offset);
    if utc.None? {
      return Err(BadTime);
    }
    db.preferences := Upsert(db.preferences, Reminder(db.preferences, chat, templateId, utc.value));
    return Ok(true);
  }

  /**
   * `remove_survey_reminder(conn, chat_id, template_id)`: `False` when
   * there is no row; otherwise switches the reminder off, keeping its time
   * and the favourite flag.
   */
  method RemoveSurveyReminder(db: Database, chat: int, templateId: int, fault: bool) returns (ok: bool)
    requires db.Valid()
    modifies db
    ensures db.Valid()
    ensures ok <==> !fault && PreferenceOf(old(db.preferences), chat, templateId).Some?
    ensures ok ==> db.State() == old(db.State()).(
      preferences := Upsert(old(db.preferences),
                            PreferenceOf(old(db.preferences), chat, templateId).value.(notificationEnabled := false)))
    ensures ok ==> !PreferenceOf(db.preferences, chat, templateId).value.notificationEnabled
    ensures !ok ==> db.State() == old(db.State())
  {
    if fault {
      return false;
    }
    var row := PreferenceOf(db.preferences, chat, templateId);
    if row.None? {
      return false;
    }
    db.preferences := Upsert(db.preferences, row.value.(notificationEnabled := false));
    return true;
  }

  /**
   * Favourites and reminders share rows without interfering: marking a
   * favourite and setting a reminder give the same table in either order.
   */
  lemma FavoriteAndReminderCommute(prefs: seq<Preference>, chat: int, templateId: int, utc: string)
    requires KeysDistinct(prefs, PreferenceKey)
    ensures var a := Upsert(prefs, Favorite(prefs, chat, templateId));
            var b := Upsert(prefs, Reminder(prefs, chat, templateId, utc));
            Upsert(a, Reminder(a, chat, templateId, utc)) == Upsert(b, Favorite(b, chat, templateId))
  {
    var both := match PreferenceOf(prefs, chat, templateId)
      case Some(row) => row.(isFavorite := true, notificationEnabled := true, notificationTime := Some(utc))
      case None => Preference(chat, templateId, true, true, Some(utc));
    var a := Upsert(prefs, Favorite(prefs, chat, templateId));
    var b := Upsert(prefs, Reminder(prefs, chat, templateId, utc));
    assert Reminder(a, chat, templateId, utc) == both;
    assert Favorite(b, chat, templateId) == both;
    UpsertOverwrites(prefs, Favorite(prefs, chat, templateId), both);
    UpsertOverwrites(prefs, Reminder(prefs, chat, templateId, utc), both);
  }

  // ---------------------------------------------------------------------
  // get_survey_reminders

  /** One entry of the reminders list. */
  datatype ReminderView = ReminderView(
    templateId: int, name: string, description: Option<string>,
    enabled: bool, time: Option<string>, isFavorite: bool)

  function RemindersOf(chat: int, enabledOnly: bool): Preference -> bool {
    (p: Preference) => p.chatId == chat && (enabledOnly ==> p.notificationEnabled)
  }

  function ReminderRow(pt: (Preference, Template)): ReminderView {
    ReminderView(pt.0.templateId, pt.1.name, pt.1.description,
                 pt.0.notificationEnabled, pt.0.notificationTime, pt.0.isFavorite)
  }

  /** `v` is the entry of a stored row of the chat and the template it names, with their own columns. */
  predicate ReminderShown(prefs: seq<Preference>, templates: seq<Template>, chat: int, enabledOnly: bool,
                          v: ReminderView) {
    exists p, t :: p in prefs && t in templates && p.chatId == chat && p.templateId == t.id
      && (enabledOnly ==> p.notificationEnabled) && v == ReminderRow((p, t))
  }

  /**
   * `get_survey_reminders(conn, chat_id, enabled_only)`: the chat's rows
   * whose template exists, switched-on ones only when asked. The query
   * has no `ORDER BY`; the rows come in table order.
   */
  function GetSurveyReminders(db: Database, chat: int, enabledOnly: bool): (r: seq<ReminderView>)
    reads db
    ensures |r| == |InnerJoin(Filter(db.preferences, RemindersOf(chat, enabledOnly)), db.templates, TemplateOfPreference)|
    ensures enabledOnly ==> forall k :: 0 <= k < |r| ==> r[k].enabled
    ensures forall k :: 0 <= k < |r| ==>
      PreferenceOf(db.preferences, chat, r[k].templateId).Some? && GetTemplateById(db, r[k].templateId).Some?
    ensures forall k :: 0 <= k < |r| ==> ReminderShown(db.preferences, db.templates, chat, enabledOnly, r[k])
  {
    var selected := Filter(db.preferences, RemindersOf(chat, enabledOnly));
    var joined := InnerJoin(selected, db.templates, TemplateOfPreference);
    var r := MapSeq(joined, ReminderRow);
    forall k | 0 <= k < |r|
      ensures PreferenceOf(db.preferences, chat, r[k].templateId).Some? && GetTemplateById(db, r[k].templateId).Some?
    {
      var p := joined[k].0;
      assert p in selected;
      var i :| 0 <= i < |db.preferences| && db.preferences[i] == p;
      var j :| 0 <= j < |db.templates| && db.templates[j] == joined[k].1;
    }
    forall k | 0 <= k < |r|
      ensures ReminderShown(db.preferences, db.templates, chat, enabledOnly, r[k])
    {
      var p, t := joined[k].0, joined[k].1;
      assert p in selected && t in db.templates && TemplateOfPreference(p, t);
      assert r[k] == ReminderRow((p, t));
    }
    r
  }

  /** Every row of the chat whose template exists is listed, with its own columns. */
  lemma ReminderListed(db: Database, chat: int, enabledOnly: bool, p: Preference, t: Template)
    requires p in db.preferences && t in db.templates && p.chatId == chat && p.templateId == t.id
    requires enabledOnly ==> p.notificationEnabled
    ensures ReminderView(t.id, t.name, t.description, p.notificationEnabled, p.notificationTime, p.isFavorite)
            in GetSurveyReminders(db, chat, enabledOnly)
  {
    var selected := Filter(db.preferences, RemindersOf(chat, enabledOnly));
    var joined := InnerJoin(selected, db.templates, TemplateOfPreference);
    InnerJoinMembers(selected, db.templates, TemplateOfPreference, p, t);
    MapSeqMembers(joined, ReminderRow, ReminderRow((p, t)));
  }

  // ---------------------------------------------------------------------
  // get_surveys_for_notification

  /** One reminder to send. */
  datatype NotificationView = NotificationView(
    chatId: int, templateId: int, name: string, description: Option<string>, timezoneOffset: int)

  /** The chat has a switched-on reminder for the template at UTC time `current`. */
  predicate Scheduled(prefs: seq<Preference>, chat: int, templateId: int, current: string) {
    exists i :: 0 <= i < |prefs| && PreferenceKey(prefs[i]) == (chat, templateId)
      && prefs[i].notificationEnabled && prefs[i].notificationTime == Some(current)
  }

  function DueAt(current: string): Preference -> bool {
    (p: Preference) => p.notificationEnabled && p.notificationTime == Some(current)
  }

  /** `JOIN users u ON usp.chat_id = u.chat_id` */
  predicate UserOfPair(pt: (Preference, Template), u: UserRow) {
    pt.0.chatId == u.chatId
  }

  /** `timezone_offset or 0` */
  function OffsetOrZero(offset: Option<int>): int {
    match offset
    case None => 0
    case Some(k) => k
  }

  function NotificationRow(ptu: ((Preference, Template), UserRow)): NotificationView {
    NotificationView(ptu.0.0.chatId, ptu.0.0.templateId, ptu.0.1.name, ptu.0.1.description,
                     OffsetOrZero(ptu.1.timezoneOffset))
  }

  /** The reminders switched on for the UTC time `current`, joined with the template and the user. */
  function DueReminders(db: Database, current: string): seq<((Preference, Template), UserRow)>
    reads db
  {
    InnerJoin(InnerJoin(Filter(db.preferences, DueAt(current)), db.templates, TemplateOfPreference),
              db.users, UserOfPair)
  }

  /** The entry's name and description are those of a stored template with its id. */
  predicate TemplateShown(templates: seq<Template>, v: NotificationView) {
    exists t :: t in templates && t.id == v.templateId && t.name == v.name && t.description == v.description
  }

  /** The entry's chat has a users row, whose offset (0 when unset) the entry carries. */
  predicate UserShown(users: seq<UserRow>, v: NotificationView) {
    exists u :: u in users && u.chatId == v.chatId && v.timezoneOffset == OffsetOrZero(u.timezoneOffset)
  }

  /**
   * `get_surveys_for_notification(conn, current_time)`: one entry per
   * switched-on reminder at `current` whose template and user exist.
   */
  function GetSurveysForNotification(db: Database, current: string): (r: seq<NotificationView>)
    reads db
    ensures |r| == |DueReminders(db, current)|
    ensures forall k :: 0 <= k < |r| ==> Scheduled(db.preferences, r[k].chatId, r[k].templateId, current)
    ensures forall k :: 0 <= k < |r| ==> TemplateShown(db.templates, r[k]) && UserShown(db.users, r[k])
  {
    var due := DueReminders(db, current);
    var r := MapSeq(due, NotificationRow);
    forall k | 0 <= k < |r|
      ensures Scheduled(db.preferences, r[k].chatId, r[k].templateId, current)
      ensures TemplateShown(db.templates, r[k]) && UserShown(db.users, r[k])
    {
      var p := due[k].0.0;
      var t := due[k].0.1;
      var u := due[k].1;
      assert due[k].0 in InnerJoin(Filter(db.preferences, DueAt(current)), db.templates, TemplateOfPreference);
      assert p in Filter(db.preferences, DueAt(current));
      var i :| 0 <= i < |db.preferences| && db.preferences[i] == p;
      assert r[k] == NotificationRow(due[k]);
      assert t in db.templates && t.id == p.templateId;
      assert u in db.users && u.chatId == p.chatId;
    }
    r
  }

  /**
   * A reminder stored for UTC time `utc` is sent at `utc` when its
   * template and its user exist, with the user's offset (0 when unset).
   */
  lemma StoredReminderIsSent(db: Database, chat: int, t: Template, u: UserRow, utc: string)
    requires t in db.templates && u in db.users && u.chatId == chat
    requires PreferenceOf(db.preferences, chat, t.id).Some?
    requires PreferenceOf(db.preferences, chat, t.id).value.notificationEnabled
    requires PreferenceOf(db.preferences, chat, t.id).value.notificationTime == Some(utc)
    ensures NotificationView(chat, t.id, t.name, t.description, OffsetOrZero(u.timezoneOffset))
            in GetSurveysForNotification(db, utc)
  {
    var p := PreferenceOf(db.preferences, chat, t.id).value;
    var selected := Filter(db.preferences, DueAt(utc));
    var joined := InnerJoin(selected, db.templates, TemplateOfPreference);
    InnerJoinMembers(selected, db.templates, TemplateOfPreference, p, t);
    InnerJoinMembers(joined, db.users, UserOfPair, (p, t), u);
    MapSeqMembers(DueReminders(db, utc), NotificationRow, NotificationRow(((p, t), u)));
  }
}
