/**
 * The reminder commands (src/handlers/survey_notification_handlers.py):
 * the time check, how `/set_survey_reminder` and `/remove_survey_reminder`
 * split their arguments, the timezone lookup, and what each command does
 * to the database.
 */
module SurveyNotificationHandlers {
  import opened Base
  import opened Strings
  import opened Sorting
  import opened Db
  import opened SurveysStorage
  import opened SurveyNotificationsStorage
  import SurveyHandlers
  import DateHelpers

  // ---------------------------------------------------------------------
  // _validate_time_format

  /**
   * `_validate_time_format(time_str)`: `re.match` of
   * `^([01]?[0-9]|2[0-3]):[0-5][0-9]$`, the same pattern as the answer
   * check of a time question.
   */
  function ValidateTimeFormat(s: string): (ok: bool)
    ensures ok <==> SurveyHandlers.LaxClock(s) || (|s| > 0 && s[|s| - 1] == '\n' && SurveyHandlers.LaxClock(s[..|s| - 1]))
  {
    SurveyHandlers.MatchesClock(s)
  }

  /**
   * Every time `is_valid_time_format` accepts passes here too, but not
   * the other way round: a one-digit hour passes only here.
   */
  lemma ValidateLaxerThanStrict(s: string)
    ensures DateHelpers.IsValidTimeFormat(s) ==> ValidateTimeFormat(s)
    ensures ValidateTimeFormat("9:30") && !DateHelpers.IsValidTimeFormat("9:30")
  {
    SurveyHandlers.ClockLaxerThanStrict(s);
    if |s| == 6 {
      SurveyHandlers.ClockLaxerThanStrict(s[..5]);
    }
  }

  /**
   * A time that passes, without a trailing newline, reads as an hour
   * below 24 and a minute below 60, so storing it converts to UTC
   * without a ValueError.
   */
  lemma ValidTimeConverts(t: string, offset: int)
    requires SurveyHandlers.LaxClock(t)
    ensures HourMinute(t).Some?
    ensures 0 <= HourMinute(t).value.0 < 24 && 0 <= HourMinute(t).value.1 < 60
    ensures ToUtc(t, offset).Some?
  {
    SurveyHandlers.ClockRead(t);
    var hour := t[..|t| - 3];
    var minute := t[|t| - 2..];
    ParseIntOfDigits(hour);
    ParseIntOfDigits(minute);
    assert ':' !in hour by {
      forall k | 0 <= k < |hour| ensures hour[k] != ':' { assert IsDigitChar(hour[k]); }
    }
    assert ':' !in minute by {
      forall k | 0 <= k < |minute| ensures minute[k] != ':' { assert IsDigitChar(minute[k]); }
    }
    HourMinuteOf(hour, minute, DigitsValue(hour), DigitsValue(minute));
  }

  // ---------------------------------------------------------------------
  // Argument splitting

  /** The refusals a reminder command sends before it opens the database. */
  datatype ArgsError = NotEnoughArgs | BadTimeFormat

  /**
   * `set_reminder_handler`'s arguments: at least two; the last is the time
   * and the others, joined by single spaces, are the survey name; the
   * time is checked before anything else happens.
   */
  function SetReminderArgs(args: seq<string>): (r: Result<(string, string), ArgsError>)
    ensures r == Err(NotEnoughArgs) <==> |args| < 2
    ensures r == Err(BadTimeFormat) <==> |args| >= 2 && !ValidateTimeFormat(args[|args| - 1])
    ensures r.Ok? ==> (|args| >= 2 && r.value.1 == args[|args| - 1] && ValidateTimeFormat(r.value.1))
  {
    if |args| < 2 then Err(NotEnoughArgs)
    else
      var time := args[|args| - 1];
      var name := Join(args[..|args| - 1], " ");
      if !ValidateTimeFormat(time) then Err(BadTimeFormat) else Ok((name, time))
  }

  /**
   * `remove_reminder_handler`'s arguments: at least one, all of them,
   * joined by single spaces, are the survey name.
   */
  function RemoveReminderArgs(args: seq<string>): (r: Result<string, ArgsError>)
    ensures r.Err? <==> args == []
    ensures r.Err? ==> r.error == NotEnoughArgs
  {
    if |args| < 1 then Err(NotEnoughArgs) else Ok(Join(args, " "))
  }

  /**
   * A command typed as a name of several words and then a valid time:
   * Telegram's whitespace split followed by the handler's split gives back
   * the name, with single spaces, and the time.
   */
  lemma SetReminderArgsOfMessage(nameWords: seq<string>, time: string)
    requires nameWords != [] && forall i :: 0 <= i < |nameWords| ==> Word(nameWords[i])
    requires Word(time) && ValidateTimeFormat(time)
    ensures SetReminderArgs(Words(Join(nameWords + [time], " "))) == Ok((Join(nameWords, " "), time))
  {
    var ws := nameWords + [time];
    WordsOfJoin(ws);
    assert ws[..|ws| - 1] == nameWords;
  }

  /** The remove command's name is the whole message after the command, re-spaced. */
  lemma RemoveReminderArgsOfMessage(nameWords: seq<string>)
    requires nameWords != [] && forall i :: 0 <= i < |nameWords| ==> Word(nameWords[i])
    ensures RemoveReminderArgs(Words(Join(nameWords, " "))) == Ok(Join(nameWords, " "))
  {
    WordsOfJoin(nameWords);
  }

  /** The set command's name is what the remove command would take from the same words. */
  lemma SetAndRemoveAgreeOnName(args: seq<string>)
    requires SetReminderArgs(args).Ok?
    ensures RemoveReminderArgs(args[..|args| - 1]) == Ok(SetReminderArgs(args).value.0)
  {
  }

  // ---------------------------------------------------------------------
  // _get_user_timezone

  predicate IsUser(chat: int, u: UserRow) {
    u.chatId == chat
  }

  /** `_get_user_timezone(conn, chat_id)`: the stored offset, 0 for no row or a NULL offset. */
  function UserTimezone(users: seq<UserRow>, chat: int): (tz: int)
    ensures (forall i :: 0 <= i < |users| ==> users[i].chatId != chat) ==> tz == 0
    ensures forall i :: (
      (0 <= i < |users| && users[i].chatId == chat && (forall j :: 0 <= j < i ==> users[j].chatId != chat))
      ==> tz == (if users[i].timezoneOffset.Some? then users[i].timezoneOffset.value else 0))
  {
    var i := FindIndex(users, u => IsUser(chat, u));
    if i < |users| && users[i].timezoneOffset.Some? then users[i].timezoneOffset.value else 0
  }

  // ---------------------------------------------------------------------
  // The two commands

  /** The replies of `/set_survey_reminder`. */
  datatype SetReply =
    | SetRefused(reason: ArgsError)
    | SurveyNotFound(name: string)
    | ReminderSet(name: string, time: string)
    | SetFailed              // `set_survey_reminder` returned False
    | SetCrashed             // an exception, caught by the handler

  /**
   * `set_reminder_handler`: refuses bad arguments before any database
   * call, looks the survey up by name, and stores the reminder in UTC
   * using the user's timezone.
   */
  method SetReminderCommand(db: Database, chat: int, args: seq<string>, fault: bool) returns (reply: SetReply)
    requires db.Valid()
    modifies db
    ensures db.Valid()
    ensures SetReminderArgs(args).Err? ==> reply == SetRefused(SetReminderArgs(args).error)
    ensures SetReminderArgs(args).Ok? && GetTemplateByName(db, SetReminderArgs(args).value.0).None?
      ==> reply == SurveyNotFound(SetReminderArgs(args).value.0)
    ensures reply.ReminderSet? ==> (SetReminderArgs(args) == Ok((reply.name, reply.time))
      && var t := old(GetTemplateByName(db, reply.name));
         t.Some? && ToUtc(reply.time, UserTimezone(old(db.users), chat)).Some?
         && db.State() == old(db.State()).(
              preferences := Upsert(old(db.preferences),
                                    Reminder(old(db.preferences), chat, t.value.id,
                                             ToUtc(reply.time, UserTimezone(old(db.users), chat)).value)))
         && PreferenceOf(db.preferences, chat, t.value.id).Some?
         && PreferenceOf(db.preferences, chat, t.value.id).value.notificationEnabled
         && PreferenceOf(db.preferences, chat, t.value.id).value.notificationTime
            == ToUtc(reply.time, UserTimezone(old(db.users), chat)))
    ensures !reply.ReminderSet? ==> db.State() == old(db.State())
  {
    match SetReminderArgs(args)
    case Err(e) =>
      return SetRefused(e);
    case Ok((name, time)) =>
      var template := GetTemplateByName(db, name);
      if template.None? {
        return SurveyNotFound(name);
      }
      var timezone := UserTimezone(db.users, chat);
      var r := SetSurveyReminder(db, chat, template.value.id, time, timezone, fault);
      match r
      case Ok(true) => reply := ReminderSet(name, time);
      case Ok(false) => reply := SetFailed;
      case Err(_) => reply := SetCrashed;
  }

  /** The replies of `/remove_survey_reminder`. */
  datatype RemoveReply =
    | RemoveRefused
    | RemoveSurveyNotFound(name: string)
    | ReminderOff(name: string)
    | NotConfigured(name: string)   // `remove_survey_reminder` returned False

  /**
   * `remove_reminder_handler`: no arguments is refused, otherwise the
   * joined name is looked up and its reminder switched off.
   */
  method RemoveReminderCommand(db: Database, chat: int, args: seq<string>, fault: bool) returns (reply: RemoveReply)
    requires db.Valid()
    modifies db
    ensures db.Valid()
    ensures reply == RemoveRefused <==> args == []
    ensures args != [] && GetTemplateByName(db, Join(args, " ")).None?
      ==> reply == RemoveSurveyNotFound(Join(args, " "))
    ensures reply.ReminderOff? ==> (reply.name == Join(args, " ")
      && var t := GetTemplateByName(db, reply.name);
         t.Some? && PreferenceOf(old(db.preferences), chat, t.value.id).Some?
         && db.State() == old(db.State()).(
              preferences := Upsert(old(db.preferences),
                                    PreferenceOf(old(db.preferences), chat, t.value.id).value.(notificationEnabled := false)))
         && PreferenceOf(db.preferences, chat, t.value.id).Some?
         && !PreferenceOf(db.preferences, chat, t.value.id).value.notificationEnabled)
    ensures !reply.ReminderOff? ==> db.State() == old(db.State())
  {
    match RemoveReminderArgs(args)
    case Err(_) =>
      return RemoveRefused;
    case Ok(name) =>
      var template := GetTemplateByName(db, name);
      if template.None? {
        return RemoveSurveyNotFound(name);
      }
      var ok := RemoveSurveyReminder(db, chat, template.value.id, fault);
      reply := if ok then ReminderOff(name) else NotConfigured(name);
  }
}
