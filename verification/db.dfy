/**
 * The bot's SQLite database as a set of tables held by one connection
 * object. Each table is a sequence of rows in rowid order; an
 * `AUTOINCREMENT` primary key is drawn from a per-table counter. The
 * `entries` and `users` tables are written by code outside this model and
 * are only read here.
 */
module Db {
  import opened Base
  import opened Strings
  import opened Sorting

  /** A row of `impressions`. */
  datatype Impression = Impression(
    id: int, chatId: int, text: string, date: string, time: string,
    category: Option<string>, intensity: Option<int>, entryDate: Option<string>,
    createdAt: string)

  /** A row of `impression_tags`. */
  datatype Tag = Tag(id: int, chatId: int, name: string, color: Option<string>)

  /** A row of `impression_tag_relations`. */
  datatype TagLink = TagLink(impressionId: int, tagId: int)

  /** A row of `survey_templates`. */
  datatype Template = Template(
    id: int, name: string, description: Option<string>, isSystem: bool,
    creator: Option<int>, icon: Option<string>, isActive: bool)

  /** A row of `survey_questions`. */
  datatype Question = Question(
    id: int, templateId: int, text: string, kind: string, orderIndex: int,
    isRequired: bool, config: Option<string>, helpText: Option<string>)

  /** A row of `survey_responses`; `blob` is the encrypted answers. */
  datatype Response = Response(
    id: int, chatId: int, templateId: int, date: string, time: string, blob: string)

  /** A row of `user_survey_preferences`, keyed by (chat, template). */
  datatype Preference = Preference(
    chatId: int, templateId: int, isFavorite: bool,
    notificationEnabled: bool, notificationTime: Option<string>)

  /** The columns of `users` that the survey reminders read. */
  datatype UserRow = UserRow(chatId: int, timezoneOffset: Option<int>)

  /** Python truthiness of an optional text argument: given and non-empty. */
  predicate Given(s: Option<string>) {
    s.Some? && s.value != ""
  }

  // ---------------------------------------------------------------------
  // Keys and constraints

  function ImpressionKey(r: Impression): int { r.id }
  function TagKey(r: Tag): int { r.id }
  function TagNameKey(r: Tag): (int, string) { (r.chatId, r.name) }
  function LinkKey(r: TagLink): TagLink { r }
  function TemplateKey(r: Template): int { r.id }
  function QuestionKey(r: Question): int { r.id }
  function ResponseKey(r: Response): int { r.id }
  function PreferenceKey(r: Preference): (int, int) { (r.chatId, r.templateId) }
  function UserKey(r: UserRow): int { r.chatId }

  /** No two rows of `s` share a key: a primary key or `UNIQUE` constraint. */
  predicate KeysDistinct<T, K(==)>(s: seq<T>, key: T -> K) {
    forall i, j :: 0 <= i < j < |s| ==> key(s[i]) != key(s[j])
  }

  /** Every key in use lies below the table's next `AUTOINCREMENT` value. */
  predicate KeysBelow<T>(s: seq<T>, key: T -> int, next: int) {
    forall i :: 0 <= i < |s| ==> key(s[i]) < next
  }

  /** An `AUTOINCREMENT` table: distinct ids, all below the counter. */
  predicate IdTable<T>(s: seq<T>, key: T -> int, next: int) {
    KeysDistinct(s, key) && KeysBelow(s, key, next)
  }

  /** A row appended under the counter's value keeps the table well formed. */
  lemma AppendFresh<T>(s: seq<T>, key: T -> int, next: int, x: T)
    requires IdTable(s, key, next) && key(x) == next
    ensures IdTable(s + [x], key, next + 1)
    ensures forall i :: 0 <= i < |s| ==> key(s[i]) != key(x)
  {
  }

  /** Deleting rows keeps every key constraint. */
  lemma {:induction false} FilterKeysDistinct<T(!new), K>(s: seq<T>, key: T -> K, p: T -> bool)
    requires KeysDistinct(s, key)
    ensures KeysDistinct(Filter(s, p), key)
  {
    if s != [] {
      var t := s[1..];
      assert KeysDistinct(t, key) by {
        forall i, j | 0 <= i < j < |t| ensures key(t[i]) != key(t[j]) {
          assert t[i] == s[i + 1] && t[j] == s[j + 1];
        }
      }
      FilterKeysDistinct(t, key, p);
      if p(s[0]) {
        var r := Filter(s, p);
        assert r == [s[0]] + Filter(t, p);
        forall i, j | 0 <= i < j < |r| ensures key(r[i]) != key(r[j]) {
          if i == 0 {
            assert r[j] in t;
            var k :| 0 <= k < |t| && t[k] == r[j];
            assert s[k + 1] == r[j];
          } else {
            assert r[i] == Filter(t, p)[i - 1] && r[j] == Filter(t, p)[j - 1];
          }
        }
      }
    }
  }

  lemma FilterKeysBelow<T(!new)>(s: seq<T>, key: T -> int, next: int, p: T -> bool)
    requires KeysBelow(s, key, next)
    ensures KeysBelow(Filter(s, p), key, next)
  {
    var r := Filter(s, p);
    forall i | 0 <= i < |r| ensures key(r[i]) < next {
      assert r[i] in s;
    }
  }

  /** `DELETE ... WHERE` on an `AUTOINCREMENT` table keeps it well formed. */
  lemma FilterIdTable<T(!new)>(s: seq<T>, key: T -> int, next: int, p: T -> bool)
    requires IdTable(s, key, next)
    ensures IdTable(Filter(s, p), key, next)
  {
    FilterKeysDistinct(s, key, p);
    FilterKeysBelow(s, key, next, p);
  }

  /** The rows whose key is not `k`: `DELETE ... WHERE key = k`. */
  function KeyOtherThan<T, K(==)>(key: T -> K, k: K): T -> bool {
    (x: T) => key(x) != k
  }

  /** Deleting by a key in use removes exactly one row. */
  lemma {:induction false} FilterOutOne<T(!new), K>(s: seq<T>, key: T -> K, k: K, i: nat)
    requires KeysDistinct(s, key) && i < |s| && key(s[i]) == k
    ensures |Filter(s, KeyOtherThan(key, k))| == |s| - 1
  {
    var t := s[1..];
    assert KeysDistinct(t, key) by {
      forall a, b | 0 <= a < b < |t| ensures key(t[a]) != key(t[b]) {
        assert t[a] == s[a + 1] && t[b] == s[b + 1];
      }
    }
    if i == 0 {
      forall j | 0 <= j < |t| ensures KeyOtherThan(key, k)(t[j]) {
        assert t[j] == s[j + 1];
      }
      FilterKeepsAll(t, KeyOtherThan(key, k));
    } else {
      assert t[i - 1] == s[i];
      FilterOutOne(t, key, k, i - 1);
    }
  }

  // ---------------------------------------------------------------------
  // user_survey_preferences rows by (chat, template)

  function PreferenceFor(chat: int, templateId: int): Preference -> bool {
    (p: Preference) => p.chatId == chat && p.templateId == templateId
  }

  /** The row for (chat, template) that `SELECT ... WHERE chat_id = ? AND template_id = ?` fetches. */
  function PreferenceOf(prefs: seq<Preference>, chat: int, templateId: int): (r: Option<Preference>)
    ensures r.Some? ==> r.value in prefs && PreferenceKey(r.value) == (chat, templateId)
    ensures r.None? <==> forall i :: 0 <= i < |prefs| ==> PreferenceKey(prefs[i]) != (chat, templateId)
  {
    var i := FindIndex(prefs, PreferenceFor(chat, templateId));
    if i < |prefs| then Some(prefs[i]) else None
  }

  /** Under the primary key, the fetched row is the one row with that key. */
  lemma PreferenceOfAt(prefs: seq<Preference>, i: nat)
    requires KeysDistinct(prefs, PreferenceKey) && i < |prefs|
    ensures PreferenceOf(prefs, prefs[i].chatId, prefs[i].templateId) == Some(prefs[i])
    ensures FindIndex(prefs, PreferenceFor(prefs[i].chatId, prefs[i].templateId)) == i
  {
    var j := FindIndex(prefs, PreferenceFor(prefs[i].chatId, prefs[i].templateId));
    assert j <= i;
    assert PreferenceKey(prefs[j]) == PreferenceKey(prefs[i]);
  }

  /** An `UPDATE` of the row at `i` that keeps its key keeps the primary key. */
  lemma ReplaceKeepsKeys(prefs: seq<Preference>, i: nat, p: Preference)
    requires KeysDistinct(prefs, PreferenceKey) && i < |prefs|
    requires PreferenceKey(p) == PreferenceKey(prefs[i])
    ensures KeysDistinct(prefs[i := p], PreferenceKey)
  {
  }

  /** An `INSERT` of a key not in use keeps the primary key. */
  lemma AppendNewKey(prefs: seq<Preference>, p: Preference)
    requires KeysDistinct(prefs, PreferenceKey)
    requires forall i :: 0 <= i < |prefs| ==> PreferenceKey(prefs[i]) != PreferenceKey(p)
    ensures KeysDistinct(prefs + [p], PreferenceKey)
  {
  }

  /**
   * The preferences after writing `p` under its key: the existing row is
   * replaced in place, or `p` is appended. Other rows are untouched.
   */
  function Upsert(prefs: seq<Preference>, p: Preference): (r: seq<Preference>)
    requires KeysDistinct(prefs, PreferenceKey)
    ensures KeysDistinct(r, PreferenceKey)
    ensures PreferenceOf(r, p.chatId, p.templateId) == Some(p)
    ensures forall c, t :: (c, t) != PreferenceKey(p) ==> PreferenceOf(r, c, t) == PreferenceOf(prefs, c, t)
  {
    var i := FindIndex(prefs, PreferenceFor(p.chatId, p.templateId));
    if i < |prefs| then
      var r := prefs[i := p];
      ReplaceKeepsKeys(prefs, i, p);
      assert r[i] == p;
      PreferenceOfAt(r, i);
      forall c, t | (c, t) != PreferenceKey(p) ensures PreferenceOf(r, c, t) == PreferenceOf(prefs, c, t) {
        var j := FindIndex(prefs, PreferenceFor(c, t));
        if j < |prefs| {
          PreferenceOfAt(prefs, j);
          PreferenceOfAt(r, j);
        } else {
          assert forall k :: 0 <= k < |r| ==> PreferenceKey(r[k]) != (c, t);
        }
      }
      r
    else
      var r := prefs + [p];
      AppendNewKey(prefs, p);
      PreferenceOfAt(r, |prefs|);
      forall c, t | (c, t) != PreferenceKey(p) ensures PreferenceOf(r, c, t) == PreferenceOf(prefs, c, t) {
        var j := FindIndex(prefs, PreferenceFor(c, t));
        if j < |prefs| {
          PreferenceOfAt(prefs, j);
          PreferenceOfAt(r, j);
        } else {
          assert forall k :: 0 <= k < |r| ==> PreferenceKey(r[k]) != (c, t);
        }
      }
      r
  }

  /** A second write under the same key replaces the first one. */
  lemma UpsertOverwrites(prefs: seq<Preference>, p: Preference, q: Preference)
    requires KeysDistinct(prefs, PreferenceKey) && PreferenceKey(p) == PreferenceKey(q)
    ensures Upsert(Upsert(prefs, p), q) == Upsert(prefs, q)
  {
    var r := Upsert(prefs, p);
    var i := FindIndex(prefs, PreferenceFor(p.chatId, p.templateId));
    if i < |prefs| {
      assert r == prefs[i := p];
      PreferenceOfAt(r, i);
      assert Upsert(r, q) == r[i := q];
    } else {
      assert r == prefs + [p];
      PreferenceOfAt(r, |prefs|);
      assert Upsert(r, q) == r[|prefs| := q];
    }
  }

  // ---------------------------------------------------------------------
  // ORDER BY

  /** `ORDER BY a DESC, b DESC` on two text columns: `x` may come before `y`. */
  predicate PairDesc(x: (string, string), y: (string, string)) {
    StrLe(y.0, x.0) && (x.0 == y.0 ==> StrLe(y.1, x.1))
  }

  lemma PairDescTotal(x: (string, string), y: (string, string))
    ensures PairDesc(x, y) || PairDesc(y, x)
  {
    StrLeTotal(x.0, y.0);
    StrLeTotal(x.1, y.1);
  }

  lemma PairDescTrans(x: (string, string), y: (string, string), z: (string, string))
    requires PairDesc(x, y) && PairDesc(y, z)
    ensures PairDesc(x, z)
  {
    StrLeTrans(z.0, y.0, x.0);
    if x.0 == z.0 {
      StrLeAntisym(x.0, y.0);
      StrLeTrans(z.1, y.1, x.1);
    }
  }

  // ---------------------------------------------------------------------
  // The connection

  /** A snapshot of every table. */
  datatype Tables = Tables(
    impressions: seq<Impression>, nextImpressionId: int,
    tags: seq<Tag>, nextTagId: int,
    tagLinks: seq<TagLink>,
    entries: set<(int, string)>,
    templates: seq<Template>, nextTemplateId: int,
    questions: seq<Question>, nextQuestionId: int,
    responses: seq<Response>, nextResponseId: int,
    preferences: seq<Preference>,
    users: seq<UserRow>)

  /** The schema's keys: `AUTOINCREMENT` ids, `UNIQUE(chat_id, tag_name)` and the composite primary keys. */
  predicate ValidTables(t: Tables) {
    IdTable(t.impressions, ImpressionKey, t.nextImpressionId)
    && IdTable(t.tags, TagKey, t.nextTagId) && KeysDistinct(t.tags, TagNameKey)
    && KeysDistinct(t.tagLinks, LinkKey)
    && IdTable(t.templates, TemplateKey, t.nextTemplateId)
    && IdTable(t.questions, QuestionKey, t.nextQuestionId)
    && IdTable(t.responses, ResponseKey, t.nextResponseId)
    && KeysDistinct(t.preferences, PreferenceKey)
    && KeysDistinct(t.users, UserKey)
  }

  /** An open connection; the operations of each storage module change its tables. */
  class Database {
    var impressions: seq<Impression>
    var nextImpressionId: int
    var tags: seq<Tag>
    var nextTagId: int
    var tagLinks: seq<TagLink>
    var entries: set<(int, string)>
    var templates: seq<Template>
    var nextTemplateId: int
    var questions: seq<Question>
    var nextQuestionId: int
    var responses: seq<Response>
    var nextResponseId: int
    var preferences: seq<Preference>
    var users: seq<UserRow>

    function State(): (t: Tables)
      reads this
      ensures t.impressions == impressions && t.tags == tags && t.tagLinks == tagLinks
      ensures t.templates == templates && t.questions == questions && t.responses == responses
      ensures t.preferences == preferences && t.users == users && t.entries == entries
    {
      Tables(impressions, nextImpressionId, tags, nextTagId, tagLinks, entries,
             templates, nextTemplateId, questions, nextQuestionId,
             responses, nextResponseId, preferences, users)
    }

    predicate Valid()
      reads this
    {
      ValidTables(State())
    }

    /**
     * A freshly migrated database: every table of this model empty, except
     * the day entries and users written elsewhere.
     */
    constructor (entries: set<(int, string)>, users: seq<UserRow>)
      requires KeysDistinct(users, UserKey)
      ensures Valid()
      ensures State() == Tables([], 1, [], 1, [], entries, [], 1, [], 1, [], 1, [], users)
    {
      impressions := [];
      nextImpressionId := 1;
      tags := [];
      nextTagId := 1;
      tagLinks := [];
      this.entries := entries;
      templates := [];
      nextTemplateId := 1;
      questions := [];
      nextQuestionId := 1;
      responses := [];
      nextResponseId := 1;
      preferences := [];
      this.users := users;
    }
  }
}
