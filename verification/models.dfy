/**
 * The diary's record types (src/data/models.py): a diary entry with nine
 * scores and a user row, each converted from and to a dictionary. The
 * dictionary's keys are the record field names (`Key`, each standing for
 * the string `KeyName` gives); values are modelled as `Value`: missing keys
 * (`dict.get`) give `VNone`, and `int(...)` accepts an integer or an
 * integer string.
 */
module Models {
  import opened Base
  import opened Strings

  /** A dictionary value as the records see it. */
  datatype Value = VNone | VStr(s: string) | VInt(i: int)

  /** The dictionary keys the records read and write. */
  datatype Key =
    | DateKey | MoodKey | SleepKey | CommentKey | BalanceKey | ManiaKey | DepressionKey
    | AnxietyKey | IrritabilityKey | ProductivityKey | SociabilityKey
    | ChatIdKey | UsernameKey | FirstNameKey | NotificationTimeKey

  /** The Python string each key stands for. */
  function KeyName(k: Key): string {
    match k
    case DateKey => "date"
    case MoodKey => "mood"
    case SleepKey => "sleep"
    case CommentKey => "comment"
    case BalanceKey => "balance"
    case ManiaKey => "mania"
    case DepressionKey => "depression"
    case AnxietyKey => "anxiety"
    case IrritabilityKey => "irritability"
    case ProductivityKey => "productivity"
    case SociabilityKey => "sociability"
    case ChatIdKey => "chat_id"
    case UsernameKey => "username"
    case FirstNameKey => "first_name"
    case NotificationTimeKey => "notification_time"
  }

  type Dict = map<Key, Value>

  /** Why `from_dict` raises: a required key is missing (KeyError), or `int` rejects the value. */
  datatype ModelError = MissingKey(key: Key) | NotAnInteger(key: Key)

  /** `data.get(key)` */
  function Get(data: Dict, key: Key): (v: Value)
    ensures key !in data ==> v == VNone
    ensures key in data ==> v == data[key]
  {
    if key in data then data[key] else VNone
  }

  /** `int(value)`: an integer is kept, a string is parsed, None raises. */
  function IntOf(v: Value): (r: Option<int>)
    ensures v.VInt? ==> r == Some(v.i)
    ensures v.VNone? ==> r == None
  {
    match v
    case VNone => None
    case VStr(s) => ParseInt(s)
    case VInt(i) => Some(i)
  }

  /** `str(n)` stored as a dictionary value reads back through `int`. */
  lemma IntOfIntString(n: int)
    ensures IntOf(VStr(IntToStr(n))) == Some(n)
  {
    ParseIntOfIntToStr(n);
  }

  // ---------------------------------------------------------------------
  // Entry

  datatype Entry = Entry(
    date: Value,
    mood: int,
    sleep: int,
    comment: Value,
    balance: int,
    mania: int,
    depression: int,
    anxiety: int,
    irritability: int,
    productivity: int,
    sociability: int)

  /** The nine score keys, in the order `from_dict` reads them. */
  const ScoreKeys: seq<Key> :=
    [MoodKey, SleepKey, BalanceKey, ManiaKey, DepressionKey, AnxietyKey, IrritabilityKey, ProductivityKey, SociabilityKey]

  /** The eleven keys `to_dict` emits. */
  const EntryKeys: set<Key> :=
    {DateKey, MoodKey, SleepKey, CommentKey, BalanceKey, ManiaKey, DepressionKey, AnxietyKey,
     IrritabilityKey, ProductivityKey, SociabilityKey}

  /**
   * `int(data[k])` for each key in turn; the first key that is missing or
   * not an integer is the error.
   */
  function ReadScores(data: Dict, keys: seq<Key>): (r: Result<seq<int>, ModelError>)
    ensures r.Ok? ==> (|r.value| == |keys|
                       && forall j :: 0 <= j < |keys| ==> keys[j] in data && IntOf(data[keys[j]]) == Some(r.value[j]))
    ensures r.Err? ==> r.error.key in keys && (r.error.key !in data || IntOf(data[r.error.key]).None?)
  {
    if keys == [] then Ok([])
    else if keys[0] !in data then Err(MissingKey(keys[0]))
    else match IntOf(data[keys[0]])
      case None => Err(NotAnInteger(keys[0]))
      case Some(n) =>
        assert keys == [keys[0]] + keys[1..];
        match ReadScores(data, keys[1..])
        case Err(e) => Err(e)
        case Ok(rest) => Ok([n] + rest)
  }

  /** When every key is present and holds an integer, all reads succeed. */
  lemma ReadScoresOk(data: Dict, keys: seq<Key>)
    requires forall j :: 0 <= j < |keys| ==> keys[j] in data && IntOf(data[keys[j]]).Some?
    ensures ReadScores(data, keys).Ok?
  {
    if keys != [] {
      ReadScoresOk(data, keys[1..]);
    }
  }

  /** `Entry.from_dict(data)` */
  function EntryFromDict(data: Dict): (r: Result<Entry, ModelError>)
    ensures r.Ok? <==> (DateKey in data
                        && forall k :: k in ScoreKeys ==> k in data && IntOf(data[k]).Some?)
    ensures r.Ok? ==> (r.value.date == data[DateKey] && r.value.comment == Get(data, CommentKey)
                       && IntOf(data[MoodKey]) == Some(r.value.mood)
                       && IntOf(data[SociabilityKey]) == Some(r.value.sociability))
  {
    if DateKey !in data then Err(MissingKey(DateKey))
    else match ReadScores(data, ScoreKeys)
      case Err(e) => Err(e)
      case Ok(v) =>
        ReadAll(data);
        Ok(Entry(data[DateKey], v[0], v[1], Get(data, CommentKey), v[2], v[3], v[4], v[5], v[6], v[7], v[8]))
  }

  /** The scores are all present and integers exactly when ReadScores succeeds on them. */
  lemma ReadAll(data: Dict)
    ensures ReadScores(data, ScoreKeys).Ok? <==> forall k :: k in ScoreKeys ==> k in data && IntOf(data[k]).Some?
  {
    if forall k :: k in ScoreKeys ==> k in data && IntOf(data[k]).Some? {
      ReadScoresOk(data, ScoreKeys);
    }
  }

  /** The score an entry holds under a score key. */
  function ScoreOf(e: Entry, k: Key): int
    requires k in ScoreKeys
  {
    match k
    case MoodKey => e.mood
    case SleepKey => e.sleep
    case BalanceKey => e.balance
    case ManiaKey => e.mania
    case DepressionKey => e.depression
    case AnxietyKey => e.anxiety
    case IrritabilityKey => e.irritability
    case ProductivityKey => e.productivity
    case SociabilityKey => e.sociability
  }

  /** What `to_dict` writes under an entry key. */
  function FieldValue(e: Entry, k: Key): Value
    requires k in EntryKeys
  {
    match k
    case DateKey => e.date
    case CommentKey => e.comment
    case _ => VStr(IntToStr(ScoreOf(e, k)))
  }

  /** `Entry.to_dict()`: scores become decimal strings; `comment` is always present. */
  function EntryToDict(e: Entry): (d: Dict)
    ensures d.Keys == EntryKeys
    ensures d[CommentKey] == e.comment && d[DateKey] == e.date
    ensures forall k :: k in ScoreKeys ==> k in d && d[k] == VStr(IntToStr(ScoreOf(e, k)))
  {
    forall k | k in ScoreKeys
      ensures k in EntryKeys && FieldValue(e, k) == VStr(IntToStr(ScoreOf(e, k)))
    {
      ScoreKeyIsEntryKey(k);
    }
    map k | k in EntryKeys :: FieldValue(e, k)
  }

  /** Every score key is an entry key other than `date` and `comment`. */
  lemma ScoreKeyIsEntryKey(k: Key)
    requires k in ScoreKeys
    ensures k in EntryKeys && k != DateKey && k != CommentKey
  {
  }

  /** The entry `from_dict` builds from nine scores read in key order. */
  lemma ScoresOfRead(data: Dict, e: Entry)
    requires EntryFromDict(data) == Ok(e)
    ensures forall j :: 0 <= j < 9 ==> IntOf(data[ScoreKeys[j]]) == Some(ScoreOf(e, ScoreKeys[j]))
  {
    ReadIsScores(data, e);
    var v := ScoresOf(e);
    forall j | 0 <= j < 9 ensures IntOf(data[ScoreKeys[j]]) == Some(ScoreOf(e, ScoreKeys[j])) {
      assert IntOf(data[ScoreKeys[j]]) == Some(v[j]);
    }
  }

  /** The scores `from_dict` read are the entry's nine scores. */
  lemma ReadIsScores(data: Dict, e: Entry)
    requires EntryFromDict(data) == Ok(e)
    ensures ReadScores(data, ScoreKeys) == Ok(ScoresOf(e))
  {
    EntryOfRead(data, e);
    ScoresOfFields(e, ReadScores(data, ScoreKeys).value);
  }

  lemma EntryOfRead(data: Dict, e: Entry)
    requires EntryFromDict(data) == Ok(e)
    ensures ReadScores(data, ScoreKeys).Ok? && |ReadScores(data, ScoreKeys).value| == 9
    ensures var v := ReadScores(data, ScoreKeys).value;
      e == Entry(e.date, v[0], v[1], e.comment, v[2], v[3], v[4], v[5], v[6], v[7], v[8])
  {
  }

  lemma ScoresOfFields(e: Entry, v: seq<int>)
    requires |v| == 9 && e == Entry(e.date, v[0], v[1], e.comment, v[2], v[3], v[4], v[5], v[6], v[7], v[8])
    ensures v == ScoresOf(e)
  {
  }

  /** `Entry.from_dict(e.to_dict()) == e` */
  lemma EntryRoundTrip(e: Entry)
    ensures EntryFromDict(EntryToDict(e)) == Ok(e)
  {
    var d := EntryToDict(e);
    var vs := ScoresOf(e);
    forall j | 0 <= j < 9 ensures ScoreKeys[j] in d && IntOf(d[ScoreKeys[j]]) == Some(vs[j]) {
      IntOfIntString(vs[j]);
    }
    ReadScoresExact(d, ScoreKeys, vs);
  }

  /** The nine scores of an entry in key order. */
  function ScoresOf(e: Entry): (vs: seq<int>)
    ensures |vs| == 9 && forall j :: 0 <= j < 9 ==> vs[j] == ScoreOf(e, ScoreKeys[j])
  {
    [e.mood, e.sleep, e.balance, e.mania, e.depression, e.anxiety, e.irritability, e.productivity, e.sociability]
  }

  lemma {:induction false} ReadScoresExact(data: Dict, keys: seq<Key>, vs: seq<int>)
    requires |vs| == |keys|
    requires forall j :: 0 <= j < |keys| ==> keys[j] in data && IntOf(data[keys[j]]) == Some(vs[j])
    ensures ReadScores(data, keys) == Ok(vs)
  {
    if keys != [] {
      ReadScoresExact(data, keys[1..], vs[1..]);
      assert vs == [vs[0]] + vs[1..];
    }
  }

  /**
   * `to_dict(from_dict(d)) == d` when `d` holds exactly the eleven keys and
   * every score is some integer written as `str(int)` writes it.
   */
  lemma EntryDictRoundTrip(d: Dict, vs: seq<int>)
    requires d.Keys == EntryKeys && |vs| == 9
    requires forall j :: 0 <= j < 9 ==> d[ScoreKeys[j]] == VStr(IntToStr(vs[j]))
    ensures EntryFromDict(d).Ok? && EntryToDict(EntryFromDict(d).value) == d
  {
    var e := Entry(d[DateKey], vs[0], vs[1], d[CommentKey], vs[2], vs[3], vs[4], vs[5], vs[6], vs[7], vs[8]);
    FromWrittenScores(d, vs);
    ScoresOfBuilt(d[DateKey], d[CommentKey], vs);
    SameEntryDict(d, e);
  }

  lemma ScoresOfBuilt(date: Value, comment: Value, vs: seq<int>)
    requires |vs| == 9
    ensures var e := Entry(date, vs[0], vs[1], comment, vs[2], vs[3], vs[4], vs[5], vs[6], vs[7], vs[8]);
      forall j :: 0 <= j < 9 ==> ScoreOf(e, ScoreKeys[j]) == vs[j]
  {
  }

  lemma FromWrittenScores(d: Dict, vs: seq<int>)
    requires d.Keys == EntryKeys && |vs| == 9
    requires forall j :: 0 <= j < 9 ==> d[ScoreKeys[j]] == VStr(IntToStr(vs[j]))
    ensures EntryFromDict(d)
         == Ok(Entry(d[DateKey], vs[0], vs[1], d[CommentKey], vs[2], vs[3], vs[4], vs[5], vs[6], vs[7], vs[8]))
  {
    forall j | 0 <= j < 9 ensures IntOf(d[ScoreKeys[j]]) == Some(vs[j]) {
      IntOfIntString(vs[j]);
    }
    ReadScoresExact(d, ScoreKeys, vs);
  }

  lemma SameEntryDict(d: Dict, e: Entry)
    requires d.Keys == EntryKeys
    requires forall j :: 0 <= j < 9 ==> d[ScoreKeys[j]] == VStr(IntToStr(ScoreOf(e, ScoreKeys[j])))
    requires e.date == d[DateKey] && e.comment == d[CommentKey]
    ensures EntryToDict(e) == d
  {
    SameScores(d, e);
    SameOnAllKeys(d, e);
  }

  lemma SameOnAllKeys(d: Dict, e: Entry)
    requires d.Keys == EntryKeys
    requires forall k :: k in ScoreKeys ==> EntryToDict(e)[k] == d[k]
    requires e.date == d[DateKey] && e.comment == d[CommentKey]
    ensures EntryToDict(e) == d
  {
    var d2 := EntryToDict(e);
    forall k | k in d ensures d2[k] == d[k] {
      if k != DateKey && k != CommentKey {
        EntryKeyIsScoreKey(k);
      }
    }
    assert d2.Keys == d.Keys;
  }

  /** The entry keys other than `date` and `comment` are the score keys. */
  lemma EntryKeyIsScoreKey(k: Key)
    requires k in EntryKeys && k != DateKey && k != CommentKey
    ensures k in ScoreKeys
  {
  }

  lemma SameScores(d: Dict, e: Entry)
    requires d.Keys == EntryKeys
    requires forall j :: 0 <= j < 9 ==> d[ScoreKeys[j]] == VStr(IntToStr(ScoreOf(e, ScoreKeys[j])))
    ensures forall k :: k in ScoreKeys ==> EntryToDict(e)[k] == d[k]
  {
    var d2 := EntryToDict(e);
    forall j | 0 <= j < 9 ensures d2[ScoreKeys[j]] == d[ScoreKeys[j]] {
    }
  }

  /** A score key that is present but not an integer makes `from_dict` raise. */
  lemma EntryRejectsNonIntegerScore(d: Dict, k: Key)
    requires k in ScoreKeys && k in d && IntOf(d[k]).None?
    ensures EntryFromDict(d).Err?
  {
  }

  // ---------------------------------------------------------------------
  // User

  datatype User = User(chatId: int, username: Value, firstName: Value, notificationTime: Value)

  /** `User.from_dict(data)`: only `chat_id` is required; the rest default to None. */
  function UserFromDict(data: Dict): (r: Result<User, ModelError>)
    ensures r.Ok? <==> ChatIdKey in data && IntOf(data[ChatIdKey]).Some?
    ensures r.Ok? ==> (IntOf(data[ChatIdKey]) == Some(r.value.chatId)
                       && r.value.username == Get(data, UsernameKey)
                       && r.value.firstName == Get(data, FirstNameKey)
                       && r.value.notificationTime == Get(data, NotificationTimeKey))
  {
    if ChatIdKey !in data then Err(MissingKey(ChatIdKey))
    else match IntOf(data[ChatIdKey])
      case None => Err(NotAnInteger(ChatIdKey))
      case Some(id) =>
        Ok(User(id, Get(data, UsernameKey), Get(data, FirstNameKey), Get(data, NotificationTimeKey)))
  }

  /** `User.to_dict()` */
  function UserToDict(u: User): (d: Dict)
    ensures d.Keys == {ChatIdKey, UsernameKey, FirstNameKey, NotificationTimeKey}
    ensures d[ChatIdKey] == VInt(u.chatId)
  {
    map[ChatIdKey := VInt(u.chatId), UsernameKey := u.username,
        FirstNameKey := u.firstName, NotificationTimeKey := u.notificationTime]
  }

  /** `User.from_dict(u.to_dict()) == u` */
  lemma UserRoundTrip(u: User)
    ensures UserFromDict(UserToDict(u)) == Ok(u)
  {
  }

  /** A dictionary with only `chat_id` gives a user whose other fields are None. */
  lemma UserDefaults(id: int)
    ensures UserFromDict(map[ChatIdKey := VInt(id)]) == Ok(User(id, VNone, VNone, VNone))
  {
  }
}
