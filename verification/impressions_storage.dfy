/**
 * Impressions (short timestamped notes), their tags and the tag links,
 * stored in SQLite (src/data/impressions_storage.py). A `sqlite3.Error`
 * is the `fault` argument: the transaction rolls back and the call
 * returns `None`, `False` or `[]`.
 */
module ImpressionsStorage {
  import opened Base
  import opened Strings
  import opened Sorting
  import opened Db

  /**
   * The keys `save_impression` reads from its dictionary, each `None` when
   * absent; `chat_id` must be present (its absence raises).
   */
  datatype ImpressionInput = ImpressionInput(
    chatId: int,
    impressionText: Option<string>, text: Option<string>,
    impressionDate: Option<string>, date: Option<string>,
    impressionTime: Option<string>, time: Option<string>,
    category: Option<string>, intensity: Option<int>, entryDate: Option<string>)

  /** Python's `a or b` on two optional strings. */
  function Or(a: Option<string>, b: Option<string>): Option<string> {
    if Given(a) then a else b
  }

  /**
   * The row `save_impression` inserts under `id`, `created_at` being `now`;
   * `None` when the text, date or time would be NULL, which the schema's
   * NOT NULL constraints refuse. Each of the three prefers the long key and
   * falls back to the short one when the long one is missing or empty.
   */
  function NewImpression(input: ImpressionInput, id: int, now: string): (r: Option<Impression>)
    ensures r.Some? <==>
      (Given(input.impressionText) || input.text.Some?)
      && (Given(input.impressionDate) || input.date.Some?)
      && (Given(input.impressionTime) || input.time.Some?)
    ensures r.Some? ==> r.value.id == id && r.value.chatId == input.chatId && r.value.createdAt == now
    ensures r.Some? && Given(input.impressionText) ==> r.value.text == input.impressionText.value
    ensures r.Some? && !Given(input.impressionText) ==> Some(r.value.text) == input.text
    ensures r.Some? && Given(input.impressionDate) ==> r.value.date == input.impressionDate.value
    ensures r.Some? && !Given(input.impressionDate) ==> Some(r.value.date) == input.date
    ensures r.Some? && Given(input.impressionTime) ==> r.value.time == input.impressionTime.value
    ensures r.Some? && !Given(input.impressionTime) ==> Some(r.value.time) == input.time
    ensures r.Some? ==> (r.value.category == input.category && r.value.intensity == input.intensity
                         && r.value.entryDate == input.entryDate)
  {
    var text := Or(input.impressionText, input.text);
    var date := Or(input.impressionDate, input.date);
    var time := Or(input.impressionTime, input.time);
    if text.None? || date.None? || time.None? then None
    else Some(Impression(id, input.chatId, text.value, date.value, time.value,
                         input.category, input.intensity, input.entryDate, now))
  }

  /**
   * `save_impression(conn, impression_data)`: inserts one row under a
   * fresh id and returns that id, or returns `None` with nothing changed.
   */
  method SaveImpression(db: Database, input: ImpressionInput, now: string, fault: bool)
    returns (id: Option<int>)
    requires db.Valid()
    modifies db
    ensures db.Valid()
    ensures id.Some? <==> !fault && NewImpression(input, old(db.nextImpressionId), now).Some?
    ensures id.Some? ==> id.value == old(db.nextImpressionId)
    ensures id.Some? ==> forall i :: 0 <= i < |old(db.impressions)| ==> old(db.impressions)[i].id != id.value
    ensures id.Some? ==> db.State() == old(db.State()).(
      impressions := old(db.impressions) + [NewImpression(input, id.value, now).value],
      nextImpressionId := id.value + 1)
    ensures id.None? ==> db.State() == old(db.State())
  {
    var row := NewImpression(input, db.nextImpressionId, now);
    if fault || row.None? {
      return None;
    }
    AppendFresh(db.impressions, ImpressionKey, db.nextImpressionId, row.value);
    db.impressions := db.impressions + [row.value];
    id := Some(db.nextImpressionId);
    db.nextImpressionId := db.nextImpressionId + 1;
  }

  // ---------------------------------------------------------------------
  // Reading impressions

  /**
   * The `WHERE` of `get_user_impressions`: the owner, then an exact date,
   * an inclusive range only when both bounds are given, and a category,
   * each filter applying only when its argument is non-empty.
   */
  predicate Selects(r: Impression, chat: int, date: Option<string>, start: Option<string>,
                    end: Option<string>, category: Option<string>) {
    r.chatId == chat
    && (Given(date) ==> r.date == date.value)
    && (Given(start) && Given(end) ==> StrLe(start.value, r.date) && StrLe(r.date, end.value))
    && (Given(category) ==> r.category == category)
  }

  function Selector(chat: int, date: Option<string>, start: Option<string>,
                    end: Option<string>, category: Option<string>): Impression -> bool {
    (r: Impression) => Selects(r, chat, date, start, end, category)
  }

  /** `ORDER BY impression_date DESC, impression_time DESC` */
  predicate NewerFirst(a: Impression, b: Impression) {
    PairDesc((a.date, a.time), (b.date, b.time))
  }

  lemma NewerFirstOrder()
    ensures IsTotalPreorder(NewerFirst)
  {
    forall a, b ensures NewerFirst(a, b) || NewerFirst(b, a) {
      PairDescTotal((a.date, a.time), (b.date, b.time));
    }
    forall a, b, c | NewerFirst(a, b) && NewerFirst(b, c) ensures NewerFirst(a, c) {
      PairDescTrans((a.date, a.time), (b.date, b.time), (c.date, c.time));
    }
  }

  /**
   * The rows `get_user_impressions` returns: the selected rows, newest
   * first.
   */
  function UserImpressions(impressions: seq<Impression>, chat: int, date: Option<string>,
                           start: Option<string>, end: Option<string>,
                           category: Option<string>): (rows: seq<Impression>)
    ensures SortedBy(rows, NewerFirst)
    ensures multiset(rows) == multiset(Filter(impressions, Selector(chat, date, start, end, category)))
    ensures forall r :: r in rows <==> r in impressions && Selects(r, chat, date, start, end, category)
  {
    NewerFirstOrder();
    var selected := Filter(impressions, Selector(chat, date, start, end, category));
    var rows := SortBy(selected, NewerFirst);
    SameElements(rows, selected);
    rows
  }

  /** The tags linked to an impression (`_get_impression_tags`). */
  function TagsOf(tags: seq<Tag>, links: seq<TagLink>, impressionId: int): (r: seq<Tag>)
    ensures forall g :: g in r <==> g in tags && TagLink(impressionId, g.id) in links
  {
    Filter(tags, (g: Tag) => TagLink(impressionId, g.id) in links)
  }

  /** One result of `get_user_impressions`; `tags` only with `include_tags`. */
  datatype ImpressionView = ImpressionView(row: Impression, tags: Option<seq<Tag>>)

  /**
   * `get_user_impressions(conn, chat_id, date, start_date, end_date,
   * category, include_tags)`: builds one result per selected row, in the
   * query's order, attaching the row's tags when asked.
   */
  method GetUserImpressions(db: Database, chat: int, date: Option<string>, start: Option<string>,
                            end: Option<string>, category: Option<string>, includeTags: bool,
                            fault: bool) returns (results: seq<ImpressionView>)
    ensures fault ==> results == []
    ensures !fault ==> |results| == |UserImpressions(db.impressions, chat, date, start, end, category)|
    ensures !fault ==> forall i :: 0 <= i < |results| ==>
      results[i].row == UserImpressions(db.impressions, chat, date, start, end, category)[i]
      && results[i].tags == (if includeTags then Some(TagsOf(db.tags, db.tagLinks, results[i].row.id)) else None)
  {
    if fault {
      return [];
    }
    var rows := UserImpressions(db.impressions, chat, date, start, end, category);
    results := [];
    var i := 0;
    while i < |rows|
      invariant 0 <= i <= |rows|
      invariant |results| == i
      invariant forall k :: 0 <= k < i ==> (results[k].row == rows[k]
        && results[k].tags == (if includeTags then Some(TagsOf(db.tags, db.tagLinks, rows[k].id)) else None))
    {
      var tags := if includeTags then Some(TagsOf(db.tags, db.tagLinks, rows[i].id)) else None;
      results := results + [ImpressionView(rows[i], tags)];
      i := i + 1;
    }
  }

  /** Every returned impression is the caller's and passes the filters. */
  lemma UserImpressionsSelected(impressions: seq<Impression>, chat: int, date: Option<string>,
                                start: Option<string>, end: Option<string>,
                                category: Option<string>, i: nat)
    requires i < |UserImpressions(impressions, chat, date, start, end, category)|
    ensures var r := UserImpressions(impressions, chat, date, start, end, category)[i];
      r in impressions && r.chatId == chat
      && (Given(date) ==> r.date == date.value)
      && (Given(category) ==> r.category == category)
  {
    var rows := UserImpressions(impressions, chat, date, start, end, category);
    assert rows[i] in rows;
  }

  /** A range with a missing bound filters nothing: only both bounds restrict. */
  lemma OpenRangeIgnored(impressions: seq<Impression>, chat: int, start: Option<string>,
                         end: Option<string>)
    requires !Given(start) || !Given(end)
    ensures forall r :: (r in UserImpressions(impressions, chat, None, start, end, None)
                         <==> r in impressions && r.chatId == chat)
  {
  }

  /** `get_impression_by_id(conn, impression_id, chat_id)` */
  function GetImpressionById(db: Database, id: int, chat: int, fault: bool): (r: Option<Impression>)
    reads db
    ensures r.Some? ==> !fault && r.value in db.impressions && Owned(r.value, id, chat)
    ensures r.None? <==> fault || !HasOwned(db.impressions, id, chat)
  {
    if fault then None else FindOwned(db.impressions, id, chat)
  }

  function FindOwned(s: seq<Impression>, id: int, chat: int): (r: Option<Impression>)
    ensures r.Some? ==> r.value in s && Owned(r.value, id, chat)
    ensures r.None? <==> !HasOwned(s, id, chat)
  {
    if s == [] then None
    else if Owned(s[0], id, chat) then Some(s[0])
    else
      var r := FindOwned(s[1..], id, chat);
      assert HasOwned(s, id, chat) ==> HasOwned(s[1..], id, chat) by {
        if HasOwned(s, id, chat) {
          var i :| 0 <= i < |s| && Owned(s[i], id, chat);
          assert s[1..][i - 1] == s[i];
        }
      }
      r
  }

  // ---------------------------------------------------------------------
  // Deleting, linking and unlinking

  /** The row with this id belongs to this chat. */
  predicate Owned(r: Impression, id: int, chat: int) {
    r.id == id && r.chatId == chat
  }

  predicate HasOwned(s: seq<Impression>, id: int, chat: int) {
    exists i :: 0 <= i < |s| && Owned(s[i], id, chat)
  }

  function NotOwned(id: int, chat: int): Impression -> bool {
    (r: Impression) => !Owned(r, id, chat)
  }

  /**
   * `delete_impression(conn, impression_id, chat_id)`: deletes the row
   * only when both the id and the owner match; true iff a row went.
   */
  method DeleteImpression(db: Database, id: int, chat: int, fault: bool) returns (ok: bool)
    requires db.Valid()
    modifies db
    ensures db.Valid()
    ensures ok <==> !fault && HasOwned(old(db.impressions), id, chat)
    ensures !fault ==> db.State() == old(db.State()).(impressions := Filter(old(db.impressions), NotOwned(id, chat)))
    ensures !fault ==> (ok <==> |db.impressions| < |old(db.impressions)|)
    ensures fault ==> db.State() == old(db.State())
  {
    if fault {
      return false;
    }
    var before := db.impressions;
    FilterIdTable(before, ImpressionKey, db.nextImpressionId, NotOwned(id, chat));
    FilterKeepsAll(before, NotOwned(id, chat));
    db.impressions := Filter(before, NotOwned(id, chat));
    ok := |db.impressions| < |before|;
  }

  /** Deleting keeps every other row, and no row of that id and owner remains. */
  lemma DeleteKeepsOthers(s: seq<Impression>, id: int, chat: int)
    ensures forall r :: r in Filter(s, NotOwned(id, chat)) <==> r in s && !Owned(r, id, chat)
    ensures !HasOwned(Filter(s, NotOwned(id, chat)), id, chat)
  {
    var t := Filter(s, NotOwned(id, chat));
    forall i | 0 <= i < |t| ensures !Owned(t[i], id, chat) {
      assert t[i] in t;
    }
  }

  /** The impressions with the owned row's entry date set to `v`. */
  function SetEntryDate(s: seq<Impression>, id: int, chat: int, v: Option<string>): (r: seq<Impression>)
    ensures |r| == |s|
    ensures forall i :: 0 <= i < |s| ==> r[i] == if Owned(s[i], id, chat) then s[i].(entryDate := v) else s[i]
  {
    seq(|s|, i requires 0 <= i < |s| => if Owned(s[i], id, chat) then s[i].(entryDate := v) else s[i])
  }

  /** Setting the entry date again overrides the first setting. */
  lemma SetEntryDateLastWins(s: seq<Impression>, id: int, chat: int, v: Option<string>, w: Option<string>)
    ensures SetEntryDate(SetEntryDate(s, id, chat, v), id, chat, w) == SetEntryDate(s, id, chat, w)
  {
  }

  /** Setting the entry date changes neither ids nor owners. */
  lemma SetEntryDateKeepsOwners(s: seq<Impression>, id: int, chat: int, v: Option<string>, id2: int, chat2: int)
    ensures HasOwned(SetEntryDate(s, id, chat, v), id2, chat2) <==> HasOwned(s, id2, chat2)
    ensures forall i :: 0 <= i < |s| ==> SetEntryDate(s, id, chat, v)[i].id == s[i].id
  {
    var r := SetEntryDate(s, id, chat, v);
    if HasOwned(s, id2, chat2) {
      var i :| 0 <= i < |s| && Owned(s[i], id2, chat2);
      assert Owned(r[i], id2, chat2);
    }
    if HasOwned(r, id2, chat2) {
      var i :| 0 <= i < |r| && Owned(r[i], id2, chat2);
      assert Owned(s[i], id2, chat2);
    }
  }

  /**
   * `link_impression_to_entry(conn, impression_id, chat_id, entry_date)`:
   * sets the entry date of an owned impression when that day's entry
   * exists; an already linked impression may be relinked.
   */
  method LinkImpressionToEntry(db: Database, id: int, chat: int, entryDate: string, fault: bool)
    returns (ok: bool)
    requires db.Valid()
    modifies db
    ensures db.Valid()
    ensures ok <==> !fault && HasOwned(old(db.impressions), id, chat) && (chat, entryDate) in old(db.entries)
    ensures ok ==> db.State() == old(db.State()).(impressions := SetEntryDate(old(db.impressions), id, chat, Some(entryDate)))
    ensures !ok ==> db.State() == old(db.State())
  {
    if fault || !HasOwned(db.impressions, id, chat) || (chat, entryDate) !in db.entries {
      return false;
    }
    SetEntryDateKeepsOwners(db.impressions, id, chat, Some(entryDate), id, chat);
    db.impressions := SetEntryDate(db.impressions, id, chat, Some(entryDate));
    return true;
  }

  /**
   * `unlink_impression(conn, impression_id, chat_id)`: clears the entry
   * date of an owned impression; fails only when it is not owned.
   */
  method UnlinkImpression(db: Database, id: int, chat: int, fault: bool) returns (ok: bool)
    requires db.Valid()
    modifies db
    ensures db.Valid()
    ensures ok <==> !fault && HasOwned(old(db.impressions), id, chat)
    ensures ok ==> db.State() == old(db.State()).(impressions := SetEntryDate(old(db.impressions), id, chat, None))
    ensures !ok ==> db.State() == old(db.State())
  {
    if fault || !HasOwned(db.impressions, id, chat) {
      return false;
    }
    SetEntryDateKeepsOwners(db.impressions, id, chat, None, id, chat);
    db.impressions := SetEntryDate(db.impressions, id, chat, None);
    return true;
  }

  /**
   * Unlinking twice: the second call succeeds again and leaves the table as
   * the first left it.
   */
  lemma UnlinkIdempotent(s: seq<Impression>, id: int, chat: int)
    requires HasOwned(s, id, chat)
    ensures HasOwned(SetEntryDate(s, id, chat, None), id, chat)
    ensures SetEntryDate(SetEntryDate(s, id, chat, None), id, chat, None) == SetEntryDate(s, id, chat, None)
  {
    SetEntryDateKeepsOwners(s, id, chat, None, id, chat);
    SetEntryDateLastWins(s, id, chat, None, None);
  }

  /** `ORDER BY impression_time ASC` */
  predicate EarlierTime(a: Impression, b: Impression) {
    StrLe(a.time, b.time)
  }

  lemma EarlierTimeOrder()
    ensures IsTotalPreorder(EarlierTime)
  {
    forall a: Impression, b: Impression ensures EarlierTime(a, b) || EarlierTime(b, a) {
      StrLeTotal(a.time, b.time);
    }
    forall a: Impression, b: Impression, c: Impression | EarlierTime(a, b) && EarlierTime(b, c)
      ensures EarlierTime(a, c) {
      StrLeTrans(a.time, b.time, c.time);
    }
  }

  function LinkedTo(chat: int, entryDate: string): Impression -> bool {
    (r: Impression) => r.chatId == chat && r.entryDate == Some(entryDate)
  }

  /**
   * `get_entry_impressions(conn, chat_id, entry_date)`: the chat's
   * impressions linked to that day, earliest time first.
   */
  function GetEntryImpressions(db: Database, chat: int, entryDate: string, fault: bool): (rows: seq<Impression>)
    reads db
    ensures fault ==> rows == []
    ensures SortedBy(rows, EarlierTime)
    ensures !fault ==> multiset(rows) == multiset(Filter(db.impressions, LinkedTo(chat, entryDate)))
    ensures forall r :: r in rows ==> r in db.impressions && r.chatId == chat && r.entryDate == Some(entryDate)
  {
    if fault then []
    else
      EarlierTimeOrder();
      var linked := Filter(db.impressions, LinkedTo(chat, entryDate));
      var rows := SortBy(linked, EarlierTime);
      SameElements(rows, linked);
      rows
  }

  // ---------------------------------------------------------------------
  // Tags

  /** `tag_name.lower().strip()` */
  function NormalizeTag(name: string): string {
    Strip(Lower(name))
  }

  /** Normalising twice changes nothing: a stored tag name is its own normal form. */
  lemma NormalizeTagIdempotent(name: string)
    ensures NormalizeTag(NormalizeTag(name)) == NormalizeTag(name)
  {
    var y := Lower(name);
    var s := Strip(y);
    LowerIdempotent(name);
    assert Lower(s) == s by {
      forall i | 0 <= i < |s| ensures Lower(s)[i] == s[i] {
        assert s[i] == y[LeadingSpace(y) + i];
        assert Lower(y)[LeadingSpace(y) + i] == LowerChar(y[LeadingSpace(y) + i]);
      }
    }
    StripIdempotent(y);
  }

  /** The first tag of `chat` named `name` (the `SELECT id ... fetchone()`). */
  function FindTag(tags: seq<Tag>, chat: int, name: string): (r: Option<Tag>)
    ensures r.Some? ==> r.value in tags && r.value.chatId == chat && r.value.name == name
    ensures r.None? ==> forall i :: 0 <= i < |tags| ==> !(tags[i].chatId == chat && tags[i].name == name)
  {
    if tags == [] then None
    else if tags[0].chatId == chat && tags[0].name == name then Some(tags[0])
    else
      var r := FindTag(tags[1..], chat, name);
      assert r.None? ==> forall i :: 1 <= i < |tags| ==> tags[i] == tags[1..][i - 1];
      r
  }

  /** A tag appended under a name nobody of that chat uses is the one found next time. */
  lemma {:induction false} FindTagAfterInsert(tags: seq<Tag>, g: Tag)
    requires FindTag(tags, g.chatId, g.name).None?
    ensures FindTag(tags + [g], g.chatId, g.name) == Some(g)
  {
    if tags != [] {
      assert (tags + [g])[1..] == tags[1..] + [g];
      FindTagAfterInsert(tags[1..], g);
    }
  }

  /** Appending a tag under the counter's id and a name its chat does not use keeps every constraint. */
  lemma TagInsertValid(t: Tables, g: Tag)
    requires ValidTables(t) && g.id == t.nextTagId && FindTag(t.tags, g.chatId, g.name).None?
    ensures ValidTables(t.(tags := t.tags + [g], nextTagId := t.nextTagId + 1))
  {
    AppendFresh(t.tags, TagKey, t.nextTagId, g);
    var s := t.tags + [g];
    forall i, j | 0 <= i < j < |s| ensures TagNameKey(s[i]) != TagNameKey(s[j]) {
      assert s[i] == t.tags[i];
      if j < |t.tags| {
        assert s[j] == t.tags[j];
      }
    }
  }

  /**
   * `create_tag(conn, chat_id, tag_name, color)`: returns the id of the
   * chat's tag with the normalised name, inserting it (with the colour)
   * only when there is none.
   */
  method CreateTag(db: Database, chat: int, name: string, color: Option<string>, fault: bool)
    returns (id: Option<int>)
    requires db.Valid()
    modifies db
    ensures db.Valid()
    ensures fault ==> id == None && db.State() == old(db.State())
    ensures !fault && FindTag(old(db.tags), chat, NormalizeTag(name)).Some? ==>
      id == Some(FindTag(old(db.tags), chat, NormalizeTag(name)).value.id) && db.State() == old(db.State())
    ensures !fault && FindTag(old(db.tags), chat, NormalizeTag(name)).None? ==>
      id == Some(old(db.nextTagId))
      && db.State() == old(db.State()).(
           tags := old(db.tags) + [Tag(old(db.nextTagId), chat, NormalizeTag(name), color)],
           nextTagId := old(db.nextTagId) + 1)
    ensures !fault ==> (id.Some? && FindTag(db.tags, chat, NormalizeTag(name)).Some?
                        && FindTag(db.tags, chat, NormalizeTag(name)).value.id == id.value)
  {
    if fault {
      return None;
    }
    var normalized := NormalizeTag(name);
    var existing := FindTag(db.tags, chat, normalized);
    if existing.Some? {
      return Some(existing.value.id);
    }
    var g := Tag(db.nextTagId, chat, normalized, color);
    TagInsertValid(db.State(), g);
    FindTagAfterInsert(db.tags, g);
    ghost var after := db.State().(tags := db.tags + [g], nextTagId := db.nextTagId + 1);
    db.tags := db.tags + [g];
    id := Some(db.nextTagId);
    db.nextTagId := db.nextTagId + 1;
    assert db.State() == after;
  }

  /** `ORDER BY tag_name` */
  predicate NameOrder(a: Tag, b: Tag) {
    StrLe(a.name, b.name)
  }

  lemma NameOrderTotal()
    ensures IsTotalPreorder(NameOrder)
  {
    forall a: Tag, b: Tag ensures NameOrder(a, b) || NameOrder(b, a) {
      StrLeTotal(a.name, b.name);
    }
    forall a: Tag, b: Tag, c: Tag | NameOrder(a, b) && NameOrder(b, c) ensures NameOrder(a, c) {
      StrLeTrans(a.name, b.name, c.name);
    }
  }

  function OwnedBy(chat: int): Tag -> bool {
    (g: Tag) => g.chatId == chat
  }

  /** `get_user_tags(conn, chat_id)`: the chat's tags by name. */
  function GetUserTags(db: Database, chat: int, fault: bool): (r: seq<Tag>)
    reads db
    ensures fault ==> r == []
    ensures SortedBy(r, NameOrder)
    ensures !fault ==> multiset(r) == multiset(Filter(db.tags, OwnedBy(chat)))
  {
    if fault then []
    else
      NameOrderTotal();
      SortBy(Filter(db.tags, OwnedBy(chat)), NameOrder)
  }

  // ---------------------------------------------------------------------
  // Tag links

  /** The links `attach_tags_to_impression` inserts, in order. */
  function LinksFor(impressionId: int, tagIds: seq<int>): (r: seq<TagLink>)
    ensures |r| == |tagIds|
    ensures forall k :: 0 <= k < |r| ==> r[k] == TagLink(impressionId, tagIds[k])
  {
    seq(|tagIds|, k requires 0 <= k < |tagIds| => TagLink(impressionId, tagIds[k]))
  }

  function OtherImpression(impressionId: int): TagLink -> bool {
    (l: TagLink) => l.impressionId != impressionId
  }

  predicate NoDuplicates(s: seq<int>) {
    forall i, j :: 0 <= i < j < |s| ==> s[i] != s[j]
  }

  /**
   * `attach_tags_to_impression(conn, impression_id, tag_ids)`: deletes the
   * impression's links, then inserts one link per tag id; a repeated tag
   * id violates the primary key and rolls everything back.
   */
  method AttachTagsToImpression(db: Database, impressionId: int, tagIds: seq<int>, fault: bool)
    returns (ok: bool)
    requires db.Valid()
    modifies db
    ensures db.Valid()
    ensures ok <==> !fault && NoDuplicates(tagIds)
    ensures ok ==> db.State() == old(db.State()).(
      tagLinks := Filter(old(db.tagLinks), OtherImpression(impressionId)) + LinksFor(impressionId, tagIds))
    ensures !ok ==> db.State() == old(db.State())
  {
    if fault {
      return false;
    }
    var saved := db.tagLinks;
    FilterKeysDistinct(saved, LinkKey, OtherImpression(impressionId));
    var kept := Filter(saved, OtherImpression(impressionId));
    db.tagLinks := kept;
    var i := 0;
    while i < |tagIds|
      invariant 0 <= i <= |tagIds|
      invariant db.tagLinks == kept + LinksFor(impressionId, tagIds[..i])
      invariant NoDuplicates(tagIds[..i])
      invariant KeysDistinct(db.tagLinks, LinkKey)
      invariant db.State() == old(db.State()).(tagLinks := db.tagLinks)
    {
      var link := TagLink(impressionId, tagIds[i]);
      if link in db.tagLinks {
        // the primary key (impression_id, tag_id) refuses the row: roll back
        LinkRepeats(kept, impressionId, tagIds, i);
        db.tagLinks := saved;
        return false;
      }
      LinkExtends(kept, impressionId, tagIds, i);
      db.tagLinks := db.tagLinks + [link];
      i := i + 1;
    }
    assert tagIds[..i] == tagIds;
    return true;
  }

  /** A link already present can only come from an earlier equal tag id. */
  lemma LinkRepeats(kept: seq<TagLink>, impressionId: int, tagIds: seq<int>, i: nat)
    requires i < |tagIds|
    requires forall l :: l in kept ==> l.impressionId != impressionId
    requires TagLink(impressionId, tagIds[i]) in kept + LinksFor(impressionId, tagIds[..i])
    ensures !NoDuplicates(tagIds)
  {
    var links := kept + LinksFor(impressionId, tagIds[..i]);
    var k :| 0 <= k < |links| && links[k] == TagLink(impressionId, tagIds[i]);
    assert forall j :: 0 <= j < |kept| ==> links[j] in kept;
    assert tagIds[k - |kept|] == tagIds[i];
  }

  /** Inserting a link that is not yet present keeps the table's key. */
  lemma LinkExtends(kept: seq<TagLink>, impressionId: int, tagIds: seq<int>, i: nat)
    requires i < |tagIds|
    requires KeysDistinct(kept + LinksFor(impressionId, tagIds[..i]), LinkKey)
    requires NoDuplicates(tagIds[..i])
    requires TagLink(impressionId, tagIds[i]) !in kept + LinksFor(impressionId, tagIds[..i])
    ensures kept + LinksFor(impressionId, tagIds[..i + 1])
         == (kept + LinksFor(impressionId, tagIds[..i])) + [TagLink(impressionId, tagIds[i])]
    ensures KeysDistinct(kept + LinksFor(impressionId, tagIds[..i + 1]), LinkKey)
    ensures NoDuplicates(tagIds[..i + 1])
  {
    var before := LinksFor(impressionId, tagIds[..i]);
    assert LinksFor(impressionId, tagIds[..i + 1]) == before + [TagLink(impressionId, tagIds[i])];
    forall j | 0 <= j < i ensures tagIds[j] != tagIds[i] {
      assert before[j] == TagLink(impressionId, tagIds[j]);
      assert before[j] in kept + before;
    }
  }

  /**
   * After attaching, the impression is linked to exactly the given tags,
   * and every other impression keeps its links.
   */
  lemma AttachReplacesTagSet(links: seq<TagLink>, impressionId: int, tagIds: seq<int>)
    ensures var after := Filter(links, OtherImpression(impressionId)) + LinksFor(impressionId, tagIds);
      (forall t :: TagLink(impressionId, t) in after <==> t in tagIds)
      && (forall l: TagLink :: l.impressionId != impressionId ==> (l in after <==> l in links))
  {
    var kept := Filter(links, OtherImpression(impressionId));
    var added := LinksFor(impressionId, tagIds);
    forall t ensures TagLink(impressionId, t) in kept + added <==> t in tagIds {
      if t in tagIds {
        var k :| 0 <= k < |tagIds| && tagIds[k] == t;
        assert added[k] == TagLink(impressionId, t);
      }
      if TagLink(impressionId, t) in added {
        var k :| 0 <= k < |added| && added[k] == TagLink(impressionId, t);
        assert tagIds[k] == t;
      }
    }
  }
}
