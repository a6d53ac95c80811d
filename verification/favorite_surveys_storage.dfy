/**
 * A user's favourite surveys (src/data/favorite_surveys_storage.py): the
 * `is_favorite` column of `user_survey_preferences`, which shares its rows
 * with the survey reminders.
 */
module FavoriteSurveysStorage {
  import opened Base
  import opened Strings
  import opened Sorting
  import opened Db
  import opened SurveysStorage

  /** The chat has a row for the template with `is_favorite = 1`. */
  predicate Starred(prefs: seq<Preference>, chat: int, templateId: int) {
    exists i :: 0 <= i < |prefs| && prefs[i].chatId == chat && prefs[i].templateId == templateId
      && prefs[i].isFavorite
  }

  /**
   * The row `add_to_favorites` leaves for (chat, template): the existing
   * row with `is_favorite = 1`, or a new row with the column defaults.
   */
  function Favorite(prefs: seq<Preference>, chat: int, templateId: int): (p: Preference)
    ensures PreferenceKey(p) == (chat, templateId) && p.isFavorite
    ensures PreferenceOf(prefs, chat, templateId).Some? ==>
      p.notificationEnabled == PreferenceOf(prefs, chat, templateId).value.notificationEnabled
      && p.notificationTime == PreferenceOf(prefs, chat, templateId).value.notificationTime
    ensures PreferenceOf(prefs, chat, templateId).None? ==> !p.notificationEnabled && p.notificationTime.None?
  {
    match PreferenceOf(prefs, chat, templateId)
    case Some(row) => row.(isFavorite := true)
    case None => Preference(chat, templateId, true, false, None)
  }

  /**
   * `add_to_favorites(conn, chat_id, template_id)`: fails when the
   * template does not exist; otherwise marks it a favourite, leaving the
   * reminder columns and every other row as they were.
   */
  method AddToFavorites(db: Database, chat: int, templateId: int, fault: bool) returns (ok: bool)
    requires db.Valid()
    modifies db
    ensures db.Valid()
    ensures ok <==> !fault && GetTemplateById(db, templateId).Some?
    ensures ok ==> db.State() == old(db.State()).(
      preferences := Upsert(old(db.preferences), Favorite(old(db.preferences), chat, templateId)))
    ensures ok ==> Starred(db.preferences, chat, templateId)
    ensures !ok ==> db.State() == old(db.State())
  {
    if fault || GetTemplateById(db, templateId).None? {
      return false;
    }
    var p := Favorite(db.preferences, chat, templateId);
    db.preferences := Upsert(db.preferences, p);
    assert PreferenceOf(db.preferences, chat, templateId) == Some(p);
    return true;
  }

  /**
   * `remove_from_favorites(conn, chat_id, template_id)`: fails when the
   * chat has no row for the template; otherwise clears `is_favorite` and
   * nothing else.
   */
  method RemoveFromFavorites(db: Database, chat: int, templateId: int, fault: bool) returns (ok: bool)
    requires db.Valid()
    modifies db
    ensures db.Valid()
    ensures ok <==> !fault && PreferenceOf(old(db.preferences), chat, templateId).Some?
    ensures ok ==> db.State() == old(db.State()).(
      preferences := Upsert(old(db.preferences),
                            PreferenceOf(old(db.preferences), chat, templateId).value.(isFavorite := false)))
    ensures ok ==> !Starred(db.preferences, chat, templateId)
    ensures !ok ==> db.State() == old(db.State())
  {
    if fault {
      return false;
    }
    var row := PreferenceOf(db.preferences, chat, templateId);
    if row.None? {
      return false;
    }
    var p := row.value.(isFavorite := false);
    db.preferences := Upsert(db.preferences, p);
    forall i | 0 <= i < |db.preferences| && db.preferences[i].chatId == chat
      && db.preferences[i].templateId == templateId
      ensures !db.preferences[i].isFavorite {
      PreferenceOfAt(db.preferences, i);
    }
    return true;
  }

  /** `is_favorite(conn, chat_id, template_id)`; `False` when there is no row. */
  function IsFavorite(db: Database, chat: int, templateId: int): (r: bool)
    reads db
    requires db.Valid()
    ensures r <==> Starred(db.preferences, chat, templateId)
  {
    match PreferenceOf(db.preferences, chat, templateId)
    case None => false
    case Some(row) =>
      forall i | 0 <= i < |db.preferences| && db.preferences[i].chatId == chat
        && db.preferences[i].templateId == templateId
        ensures db.preferences[i] == row {
        PreferenceOfAt(db.preferences, i);
      }
      row.isFavorite
  }

  /** Marking a favourite twice leaves the same table as marking it once. */
  lemma AddIdempotent(prefs: seq<Preference>, chat: int, templateId: int)
    requires KeysDistinct(prefs, PreferenceKey)
    ensures var once := Upsert(prefs, Favorite(prefs, chat, templateId));
      Upsert(once, Favorite(once, chat, templateId)) == once
  {
    var p := Favorite(prefs, chat, templateId);
    var once := Upsert(prefs, p);
    assert Favorite(once, chat, templateId) == p;
    var i := FindIndex(once, PreferenceFor(chat, templateId));
    assert once[i] == p;
    assert once[i := p] == once;
  }

  // ---------------------------------------------------------------------
  // get_favorite_surveys

  /** One entry of the favourites list. */
  datatype FavoriteView = FavoriteView(templateId: int, name: string, description: Option<string>, isSystem: bool)

  function StarredBy(chat: int): Preference -> bool {
    (p: Preference) => p.chatId == chat && p.isFavorite
  }

  /** `JOIN survey_templates st ON usp.template_id = st.id` */
  predicate TemplateOfPreference(p: Preference, t: Template) {
    p.templateId == t.id
  }

  function FavoriteRow(pt: (Preference, Template)): FavoriteView {
    FavoriteView(pt.0.templateId, pt.1.name, pt.1.description, pt.1.isSystem)
  }

  /** `ORDER BY st.name` */
  predicate ByName(a: FavoriteView, b: FavoriteView) {
    StrLe(a.name, b.name)
  }

  lemma ByNameOrder()
    ensures IsTotalPreorder(ByName)
  {
    forall a: FavoriteView, b: FavoriteView ensures ByName(a, b) || ByName(b, a) {
      StrLeTotal(a.name, b.name);
    }
    forall a: FavoriteView, b: FavoriteView, c: FavoriteView | ByName(a, b) && ByName(b, c)
      ensures ByName(a, c) {
      StrLeTrans(a.name, b.name, c.name);
    }
  }

  /** The joined rows of the query, before sorting. */
  function FavoriteRows(db: Database, chat: int): seq<FavoriteView>
    reads db
  {
    MapSeq(InnerJoin(Filter(db.preferences, StarredBy(chat)), db.templates, TemplateOfPreference), FavoriteRow)
  }

  /** `get_favorite_surveys(conn, chat_id)`: the chat's favourite templates by name. */
  function GetFavoriteSurveys(db: Database, chat: int): (r: seq<FavoriteView>)
    reads db
    ensures SortedBy(r, ByName)
    ensures multiset(r) == multiset(FavoriteRows(db, chat))
  {
    ByNameOrder();
    SortBy(FavoriteRows(db, chat), ByName)
  }

  /** Every listed entry is a favourite according to `is_favorite`. */
  lemma ListedIsFavorite(db: Database, chat: int, v: FavoriteView)
    requires db.Valid() && v in GetFavoriteSurveys(db, chat)
    ensures IsFavorite(db, chat, v.templateId)
  {
    var starred := Filter(db.preferences, StarredBy(chat));
    var joined := InnerJoin(starred, db.templates, TemplateOfPreference);
    SameElements(GetFavoriteSurveys(db, chat), FavoriteRows(db, chat));
    MapSeqMembers(joined, FavoriteRow, v);
    var k :| 0 <= k < |joined| && v == FavoriteRow(joined[k]);
    var p := joined[k].0;
    assert p in starred;
    var i :| 0 <= i < |db.preferences| && db.preferences[i] == p;
    assert Starred(db.preferences, chat, v.templateId);
  }

  /** Every favourite whose template exists is listed. */
  lemma FavoriteIsListed(db: Database, chat: int, t: Template)
    requires db.Valid() && t in db.templates && IsFavorite(db, chat, t.id)
    ensures FavoriteView(t.id, t.name, t.description, t.isSystem) in GetFavoriteSurveys(db, chat)
  {
    var v := FavoriteView(t.id, t.name, t.description, t.isSystem);
    var starred := Filter(db.preferences, StarredBy(chat));
    var joined := InnerJoin(starred, db.templates, TemplateOfPreference);
    var i :| 0 <= i < |db.preferences| && db.preferences[i].chatId == chat
      && db.preferences[i].templateId == t.id && db.preferences[i].isFavorite;
    var p := db.preferences[i];
    assert p in starred;
    InnerJoinMembers(starred, db.templates, TemplateOfPreference, p, t);
    MapSeqMembers(joined, FavoriteRow, v);
    SameElements(GetFavoriteSurveys(db, chat), FavoriteRows(db, chat));
  }

  /** A template is in the favourites list exactly when `is_favorite` says it is a favourite. */
  lemma FavoritesListed(db: Database, chat: int, t: Template)
    requires db.Valid() && t in db.templates
    ensures FavoriteView(t.id, t.name, t.description, t.isSystem) in GetFavoriteSurveys(db, chat)
            <==> IsFavorite(db, chat, t.id)
  {
    if FavoriteView(t.id, t.name, t.description, t.isSystem) in GetFavoriteSurveys(db, chat) {
      ListedIsFavorite(db, chat, FavoriteView(t.id, t.name, t.description, t.isSystem));
    }
    if IsFavorite(db, chat, t.id) {
      FavoriteIsListed(db, chat, t);
    }
  }
}
