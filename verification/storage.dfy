/**
 * The CSV store of diary entries and users (src/data/storage.py). Each
 * user's entry file is a sequence of (date, encrypted blob) rows; the users
 * file is a sequence of user rows. A file that does not exist is a missing
 * key (entry files) or `None` (users file). Encryption and decryption are
 * parameters: `encrypt` returns `None` where it would raise, `decrypt`
 * returns `None` where it would raise or yield nothing.
 */
module Storage {
  import opened Base
  import opened Strings
  import opened Models

  type Blob = string

  /** One line of a user's entry file: the date stays readable, the rest is encrypted. */
  datatype Row = Row(date: string, blob: Blob)

  /** One line of the users file. */
  datatype UserRow = UserRow(chatId: int, username: Option<string>, firstName: Option<string>,
                             notificationTime: Option<string>)

  /** The text a dictionary value becomes in a CSV column. */
  function CsvText(v: Value): string {
    match v
    case VStr(s) => s
    case VInt(i) => IntToStr(i)
    case VNone => ""
  }

  // ---------------------------------------------------------------------
  // Row sequences

  predicate HasDate(rows: seq<Row>, date: string) {
    exists i :: 0 <= i < |rows| && rows[i].date == date
  }

  /** The number of rows for `date`. */
  function CountDate(rows: seq<Row>, date: string): (n: nat)
    ensures n <= |rows|
    ensures n > 0 <==> HasDate(rows, date)
  {
    if rows == [] then 0
    else
      var rest := CountDate(rows[1..], date);
      assert HasDate(rows, date) <==> rows[0].date == date || HasDate(rows[1..], date) by {
        if HasDate(rows[1..], date) {
          var i :| 0 <= i < |rows[1..]| && rows[1..][i].date == date;
          assert rows[i + 1].date == date;
        }
        if HasDate(rows, date) && rows[0].date != date {
          var i :| 0 <= i < |rows| && rows[i].date == date;
          assert rows[1..][i - 1].date == date;
        }
      }
      (if rows[0].date == date then 1 else 0) + rest
  }

  /** `df[df['date'] != date]`: the other rows, in their order. */
  function RowsWithout(rows: seq<Row>, date: string): (r: seq<Row>)
    ensures |r| <= |rows|
    ensures forall row :: row in r <==> row in rows && row.date != date
    ensures CountDate(r, date) == 0
  {
    if rows == [] then []
    else if rows[0].date == date then RowsWithout(rows[1..], date)
    else [rows[0]] + RowsWithout(rows[1..], date)
  }

  /** Removing rows of a date with none is no change. */
  lemma {:induction false} RowsWithoutAbsent(rows: seq<Row>, date: string)
    requires !HasDate(rows, date)
    ensures RowsWithout(rows, date) == rows
  {
    if rows != [] {
      forall i | 0 <= i < |rows[1..]| ensures rows[1..][i].date != date {
        assert rows[1..][i] == rows[i + 1];
      }
      assert rows[0].date != date;
      RowsWithoutAbsent(rows[1..], date);
      assert rows == [rows[0]] + rows[1..];
    }
  }

  lemma {:induction false} RowsWithoutConcat(a: seq<Row>, b: seq<Row>, date: string)
    ensures RowsWithout(a + b, date) == RowsWithout(a, date) + RowsWithout(b, date)
  {
    if a == [] {
      assert a + b == b;
    } else {
      assert (a + b)[1..] == a[1..] + b;
      RowsWithoutConcat(a[1..], b, date);
    }
  }

  lemma {:induction false} RowsWithoutTwice(rows: seq<Row>, date: string)
    ensures RowsWithout(RowsWithout(rows, date), date) == RowsWithout(rows, date)
  {
    RowsWithoutAbsent(RowsWithout(rows, date), date);
  }

  /**
   * The file after `save_data` of `row`: any row of that date is dropped and
   * the new row is appended.
   */
  function Upserted(rows: seq<Row>, row: Row): seq<Row> {
    RowsWithout(rows, row.date) + [row]
  }

  /**
   * After a save there is exactly one row for the date, it is the new row and
   * it is last; the rows of other dates keep their order.
   */
  lemma UpsertedProperties(rows: seq<Row>, row: Row)
    ensures var r := Upserted(rows, row);
      CountDate(r, row.date) == 1 && r[|r| - 1] == row
      && RowsWithout(r, row.date) == RowsWithout(rows, row.date)
  {
    var r := Upserted(rows, row);
    CountDateConcat(RowsWithout(rows, row.date), [row], row.date);
    assert CountDate([row], row.date) == 1;
    RowsWithoutConcat(RowsWithout(rows, row.date), [row], row.date);
    RowsWithoutTwice(rows, row.date);
    assert RowsWithout([row], row.date) == [];
  }

  lemma {:induction false} CountDateConcat(a: seq<Row>, b: seq<Row>, date: string)
    ensures CountDate(a + b, date) == CountDate(a, date) + CountDate(b, date)
  {
    if a == [] {
      assert a + b == b;
    } else {
      assert (a + b)[1..] == a[1..] + b;
      CountDateConcat(a[1..], b, date);
    }
  }

  /** Saving twice for one date is saving the second row once. */
  lemma SaveTwiceSameDate(rows: seq<Row>, first: Row, second: Row)
    requires first.date == second.date
    ensures Upserted(Upserted(rows, first), second) == Upserted(rows, second)
  {
    var d := first.date;
    RowsWithoutConcat(RowsWithout(rows, d), [first], d);
    RowsWithoutTwice(rows, d);
    assert RowsWithout([first], d) == [];
  }

  /** The rows of a date range: each bound applies only when non-empty. */
  predicate InRange(date: string, start: Option<string>, end: Option<string>) {
    (start.None? || start.value == "" || StrLe(start.value, date))
    && (end.None? || end.value == "" || StrLe(date, end.value))
  }

  /** `df[df['date'] >= start]` then `df[df['date'] <= end]`. */
  function Selected(rows: seq<Row>, start: Option<string>, end: Option<string>): (r: seq<Row>)
    ensures |r| <= |rows|
    ensures forall row :: row in r <==> row in rows && InRange(row.date, start, end)
  {
    if rows == [] then []
    else (if InRange(rows[0].date, start, end) then [rows[0]] else []) + Selected(rows[1..], start, end)
  }

  /** A decryption counts only when it succeeds and is not empty. */
  predicate Truthy(d: Option<Dict>) {
    d.Some? && d.value != map[]
  }

  /** The non-empty decryptions of `rows`, in file order. */
  function Decrypted(rows: seq<Row>, chat: int, decrypt: (Blob, int) -> Option<Dict>): (r: seq<Dict>)
    ensures |r| <= |rows|
  {
    if rows == [] then []
    else
      var last := rows[|rows| - 1];
      Decrypted(rows[..|rows| - 1], chat, decrypt)
        + (if Truthy(decrypt(last.blob, chat)) then [decrypt(last.blob, chat).value] else [])
  }

  /**
   * An entry is returned exactly when some row of the range decrypts to it;
   * rows that fail to decrypt are dropped.
   */
  lemma {:induction false} DecryptedMembers(rows: seq<Row>, chat: int, decrypt: (Blob, int) -> Option<Dict>, e: Dict)
    ensures e in Decrypted(rows, chat, decrypt) <==>
      exists i :: 0 <= i < |rows| && decrypt(rows[i].blob, chat) == Some(e) && e != map[]
  {
    if rows != [] {
      var init := rows[..|rows| - 1];
      DecryptedMembers(init, chat, decrypt, e);
      if e in Decrypted(rows, chat, decrypt) && e !in Decrypted(init, chat, decrypt) {
        assert decrypt(rows[|rows| - 1].blob, chat) == Some(e);
      }
      if exists i :: 0 <= i < |rows| && decrypt(rows[i].blob, chat) == Some(e) && e != map[] {
        var i :| 0 <= i < |rows| && decrypt(rows[i].blob, chat) == Some(e) && e != map[];
        if i < |rows| - 1 {
          assert init[i] == rows[i];
        }
      }
    }
  }

  lemma DecryptedSnoc(rows: seq<Row>, i: nat, chat: int, decrypt: (Blob, int) -> Option<Dict>)
    requires i < |rows|
    ensures Decrypted(rows[..i + 1], chat, decrypt)
         == Decrypted(rows[..i], chat, decrypt)
            + (if Truthy(decrypt(rows[i].blob, chat)) then [decrypt(rows[i].blob, chat).value] else [])
  {
    assert rows[..i + 1][..i] == rows[..i];
  }

  /** When every row decrypts to something non-empty, nothing is dropped. */
  lemma {:induction false} DecryptedAll(rows: seq<Row>, chat: int, decrypt: (Blob, int) -> Option<Dict>)
    requires forall i :: 0 <= i < |rows| ==> Truthy(decrypt(rows[i].blob, chat))
    ensures |Decrypted(rows, chat, decrypt)| == |rows|
  {
    if rows != [] {
      DecryptedAll(rows[..|rows| - 1], chat, decrypt);
    }
  }

  // ---------------------------------------------------------------------
  // Users

  /** `df.loc[df['chat_id'] == chat, ...] = ...` as written: None keeps the notification time. */
  function UpdatedUser(u: UserRow, username: Option<string>, firstName: Option<string>,
                       notificationTime: Option<string>): UserRow {
    UserRow(u.chatId, username, firstName,
            if notificationTime.None? then u.notificationTime else notificationTime)
  }

  predicate HasUser(rows: seq<UserRow>, chat: int) {
    exists i :: 0 <= i < |rows| && rows[i].chatId == chat
  }

  /** The users file after `save_user`, as written. */
  function UsersAfterSave(rows: Option<seq<UserRow>>, chat: int, username: Option<string>,
                          firstName: Option<string>, notificationTime: Option<string>): (r: seq<UserRow>)
    ensures rows.Some? && HasUser(rows.value, chat) ==>
      |r| == |rows.value|
      && forall i :: 0 <= i < |r| ==>
        r[i] == if rows.value[i].chatId == chat then UpdatedUser(rows.value[i], username, firstName, notificationTime)
                else rows.value[i]
    ensures rows.Some? && !HasUser(rows.value, chat) ==>
      r == rows.value + [UserRow(chat, username, firstName, notificationTime)]
    ensures rows.None? ==> r == [UserRow(chat, username, firstName, notificationTime)]
  {
    if rows.None? then [UserRow(chat, username, firstName, notificationTime)]
    else if HasUser(rows.value, chat) then
      seq(|rows.value|, i requires 0 <= i < |rows.value| =>
        if rows.value[i].chatId == chat then UpdatedUser(rows.value[i], username, firstName, notificationTime)
        else rows.value[i])
    else rows.value + [UserRow(chat, username, firstName, notificationTime)]
  }

  /**
   * The notification time a caller asks for: `Keep` when the argument is
   * left out, `SetTo(None)` to switch reminders off.
   */
  datatype TimeUpdate = Keep | SetTo(time: Option<string>)

  /** `save_user` as its callers use it: an explicit None clears the time. */
  function UsersAfterSaveIntended(rows: Option<seq<UserRow>>, chat: int, username: Option<string>,
                                  firstName: Option<string>, update: TimeUpdate): (r: seq<UserRow>)
    ensures forall i :: 0 <= i < |r| && r[i].chatId == chat && update.SetTo? ==>
      r[i].notificationTime == update.time
  {
    var nt := if update.SetTo? then update.time else None;
    if rows.None? then [UserRow(chat, username, firstName, nt)]
    else if HasUser(rows.value, chat) then
      seq(|rows.value|, i requires 0 <= i < |rows.value| =>
        var u := rows.value[i];
        if u.chatId == chat then UserRow(chat, username, firstName, if update.SetTo? then update.time else u.notificationTime)
        else u)
    else rows.value + [UserRow(chat, username, firstName, nt)]
  }

  /** `users[notification_time == t]`, in file order. */
  function UsersAt(rows: seq<UserRow>, time: string): (r: seq<UserRow>)
    ensures |r| <= |rows|
    ensures forall u :: u in r <==> u in rows && u.notificationTime == Some(time)
  {
    if rows == [] then []
    else (if rows[0].notificationTime == Some(time) then [rows[0]] else []) + UsersAt(rows[1..], time)
  }

  /**
   * As written, switching reminders off does not work: a user saved with
   * "10:00" and then saved again with None is still due at "10:00".
   */
  lemma DisableKeepsReminder(chat: int, username: Option<string>, firstName: Option<string>)
    ensures var before := UsersAfterSave(None, chat, username, firstName, Some("10:00"));
      var after := UsersAfterSave(Some(before), chat, username, firstName, None);
      UsersAt(after, "10:00") == [UserRow(chat, username, firstName, Some("10:00"))]
  {
    var before := UsersAfterSave(None, chat, username, firstName, Some("10:00"));
    assert HasUser(before, chat) by { assert before[0].chatId == chat; }
  }

  /** With the intended reading the same two saves leave nobody due at "10:00". */
  lemma IntendedDisableClearsReminder(chat: int, username: Option<string>, firstName: Option<string>)
    ensures var before := UsersAfterSaveIntended(None, chat, username, firstName, SetTo(Some("10:00")));
      var after := UsersAfterSaveIntended(Some(before), chat, username, firstName, SetTo(None));
      UsersAt(after, "10:00") == []
  {
    var before := UsersAfterSaveIntended(None, chat, username, firstName, SetTo(Some("10:00")));
    assert HasUser(before, chat) by { assert before[0].chatId == chat; }
  }

  /** Leaving the time out behaves the same either way. */
  lemma IntendedKeepAgrees(rows: Option<seq<UserRow>>, chat: int, username: Option<string>, firstName: Option<string>)
    ensures UsersAfterSaveIntended(rows, chat, username, firstName, Keep)
         == UsersAfterSave(rows, chat, username, firstName, None)
  {
  }

  // ---------------------------------------------------------------------
  // The store

  class CsvStore {
    /** chat id -> that user's entry file; a missing key is a missing file. */
    var entryFiles: map<int, seq<Row>>
    /** The users file, `None` while it does not exist. */
    var usersFile: Option<seq<UserRow>>

    constructor ()
      ensures entryFiles == map[] && usersFile == None
    {
      entryFiles := map[];
      usersFile := None;
    }

    /** The rows of a user's file, none when it does not exist. */
    function RowsOf(chat: int): (rows: seq<Row>)
      reads this
      ensures chat !in entryFiles ==> rows == []
      ensures chat in entryFiles ==> rows == entryFiles[chat]
    {
      if chat in entryFiles then entryFiles[chat] else []
    }

    /**
     * `save_data(data, chat_id)`: encrypts the entry, then replaces any row
     * of its date by the new row at the end of the file (creating the file
     * when needed). Fails with no change when encryption raises or the
     * entry has no date.
     */
    method SaveData(chat: int, data: Dict, encrypt: (Dict, int) -> Option<Blob>) returns (ok: bool)
      modifies this
      ensures ok <==> encrypt(data, chat).Some? && DateKey in data
      ensures !ok ==> entryFiles == old(entryFiles)
      ensures ok ==>
        entryFiles == old(entryFiles)[chat := Upserted(old(RowsOf(chat)), Row(CsvText(data[DateKey]), encrypt(data, chat).value))]
      ensures usersFile == old(usersFile)
    {
      var encrypted := encrypt(data, chat);
      if encrypted.None? {
        return false;
      }
      if DateKey !in data {
        return false;
      }
      var row := Row(CsvText(data[DateKey]), encrypted.value);
      if chat in entryFiles {
        var rows := entryFiles[chat];
        if HasDate(rows, row.date) {
          rows := RowsWithout(rows, row.date);
        } else {
          RowsWithoutAbsent(rows, row.date);
        }
        entryFiles := entryFiles[chat := rows + [row]];
      } else {
        assert Upserted([], row) == [row];
        entryFiles := entryFiles[chat := [row]];
      }
      return true;
    }

    /**
     * `get_user_entries(chat_id, start_date, end_date)`: the decrypted
     * entries of the rows in range, in file order, skipping rows that do
     * not decrypt to something non-empty.
     */
    method GetUserEntries(chat: int, start: Option<string>, end: Option<string>,
                          decrypt: (Blob, int) -> Option<Dict>) returns (entries: seq<Dict>)
      ensures entries == Decrypted(Selected(RowsOf(chat), start, end), chat, decrypt)
      ensures chat !in entryFiles ==> entries == []
    {
      if chat !in entryFiles {
        return [];
      }
      var rows := Selected(entryFiles[chat], start, end);
      entries := [];
      var i := 0;
      while i < |rows|
        invariant 0 <= i <= |rows|
        invariant entries == Decrypted(rows[..i], chat, decrypt)
      {
        var d := decrypt(rows[i].blob, chat);
        DecryptedSnoc(rows, i, chat, decrypt);
        if Truthy(d) {
          entries := entries + [d.value];
        }
        i := i + 1;
      }
      assert rows[..i] == rows;
    }

    /** `delete_all_entries(chat_id)`: empties an existing file. */
    method DeleteAllEntries(chat: int) returns (ok: bool)
      modifies this
      ensures ok <==> chat in old(entryFiles)
      ensures ok ==> entryFiles == old(entryFiles)[chat := []]
      ensures !ok ==> entryFiles == old(entryFiles)
      ensures usersFile == old(usersFile)
      ensures forall date :: !HasEntryForDate(chat, date)
    {
      if chat !in entryFiles {
        return false;
      }
      entryFiles := entryFiles[chat := []];
      return true;
    }

    /**
     * `delete_entry_by_date(chat_id, date)`: removes the rows of that date;
     * fails with no change when the file or the date is absent.
     */
    method DeleteEntryByDate(chat: int, date: string) returns (ok: bool)
      modifies this
      ensures ok <==> chat in old(entryFiles) && HasDate(old(entryFiles[chat]), date)
      ensures ok ==> entryFiles == old(entryFiles)[chat := RowsWithout(old(entryFiles[chat]), date)]
      ensures !ok ==> entryFiles == old(entryFiles)
      ensures usersFile == old(usersFile)
      ensures !HasEntryForDate(chat, date)
    {
      if chat !in entryFiles {
        return false;
      }
      if !HasDate(entryFiles[chat], date) {
        return false;
      }
      entryFiles := entryFiles[chat := RowsWithout(entryFiles[chat], date)];
      return true;
    }

    /** `has_entry_for_date(chat_id, date)` */
    function HasEntryForDate(chat: int, date: string): (r: bool)
      reads this
      ensures r <==> chat in entryFiles && exists i :: 0 <= i < |entryFiles[chat]| && entryFiles[chat][i].date == date
      ensures r <==> CountDate(RowsOf(chat), date) > 0
    {
      chat in entryFiles && HasDate(entryFiles[chat], date)
    }

    /**
     * `save_user(chat_id, username, first_name, notification_time)`, as
     * written: an existing user's names are overwritten, the notification
     * time only when a new one is given; a new user is appended; a missing
     * file is created.
     */
    method SaveUser(chat: int, username: Option<string>, firstName: Option<string>,
                    notificationTime: Option<string>) returns (ok: bool)
      modifies this
      ensures ok
      ensures usersFile == Some(UsersAfterSave(old(usersFile), chat, username, firstName, notificationTime))
      ensures entryFiles == old(entryFiles)
    {
      usersFile := Some(UsersAfterSave(usersFile, chat, username, firstName, notificationTime));
      return true;
    }

    /** `get_users_for_notification(current_time)`: the users due at that time. */
    function GetUsersForNotification(time: string): (r: seq<UserRow>)
      reads this
      ensures usersFile.None? ==> r == []
      ensures forall u :: u in r <==> usersFile.Some? && u in usersFile.value && u.notificationTime == Some(time)
    {
      if usersFile.None? then [] else UsersAt(usersFile.value, time)
    }
  }

  /** A saved user with a time is found at that time. */
  lemma SavedUserIsDue(rows: Option<seq<UserRow>>, chat: int, username: Option<string>,
                       firstName: Option<string>, time: string)
    ensures exists u :: u in UsersAt(UsersAfterSave(rows, chat, username, firstName, Some(time)), time) && u.chatId == chat
  {
    var r := UsersAfterSave(rows, chat, username, firstName, Some(time));
    if rows.Some? && HasUser(rows.value, chat) {
      var i :| 0 <= i < |rows.value| && rows.value[i].chatId == chat;
      assert r[i] in r && r[i].chatId == chat;
    } else {
      assert r[|r| - 1] in r;
    }
  }
}
