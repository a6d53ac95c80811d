/**
 * Survey templates, their questions and the users' encrypted responses
 * (src/data/surveys_storage.py). Encryption and decryption are opaque
 * functions; a raised exception is `None` from them, or the `fault`
 * argument for a database error.
 */
module SurveysStorage {
  import opened Base
  import opened Strings
  import opened Sorting
  import opened Db

  // ---------------------------------------------------------------------
  // Templates

  /** The `WHERE` of `get_available_templates`. */
  predicate Listed(t: Template, onlyActive: bool, onlySystem: bool) {
    (onlyActive ==> t.isActive) && (onlySystem ==> t.isSystem)
  }

  function ListedBy(onlyActive: bool, onlySystem: bool): Template -> bool {
    (t: Template) => Listed(t, onlyActive, onlySystem)
  }

  /** `ORDER BY is_system DESC, name ASC` */
  predicate SystemFirst(a: Template, b: Template) {
    (a.isSystem && !b.isSystem) || (a.isSystem == b.isSystem && StrLe(a.name, b.name))
  }

  lemma SystemFirstOrder()
    ensures IsTotalPreorder(SystemFirst)
  {
    forall a: Template, b: Template ensures SystemFirst(a, b) || SystemFirst(b, a) {
      StrLeTotal(a.name, b.name);
    }
    forall a: Template, b: Template, c: Template | SystemFirst(a, b) && SystemFirst(b, c)
      ensures SystemFirst(a, c) {
      if a.isSystem == b.isSystem == c.isSystem {
        StrLeTrans(a.name, b.name, c.name);
      }
    }
  }

  /**
   * `get_available_templates(conn, only_active, only_system)`: the listed
   * templates, system ones first, each group by name.
   */
  function GetAvailableTemplates(db: Database, onlyActive: bool, onlySystem: bool): (r: seq<Template>)
    reads db
    ensures SortedBy(r, SystemFirst)
    ensures multiset(r) == multiset(Filter(db.templates, ListedBy(onlyActive, onlySystem)))
    ensures forall t :: t in r <==> t in db.templates && Listed(t, onlyActive, onlySystem)
  {
    SystemFirstOrder();
    var listed := Filter(db.templates, ListedBy(onlyActive, onlySystem));
    var r := SortBy(listed, SystemFirst);
    SameElements(r, listed);
    r
  }

  /** In the list, no user template comes before a system one, and each group is in name order. */
  lemma AvailableTemplatesOrder(db: Database, onlyActive: bool, onlySystem: bool, i: nat, j: nat)
    requires i < j < |GetAvailableTemplates(db, onlyActive, onlySystem)|
    ensures var r := GetAvailableTemplates(db, onlyActive, onlySystem);
      (r[j].isSystem ==> r[i].isSystem)
      && (r[i].isSystem == r[j].isSystem ==> StrLe(r[i].name, r[j].name))
  {
  }

  function HasId(id: int): Template -> bool {
    (t: Template) => t.id == id
  }

  function HasName(name: string): Template -> bool {
    (t: Template) => t.name == name
  }

  /** `get_template_by_id(conn, template_id)`: `None` when no row has that id. */
  function GetTemplateById(db: Database, id: int): (r: Option<Template>)
    reads db
    ensures r.Some? ==> r.value in db.templates && r.value.id == id
    ensures r.None? <==> forall i :: 0 <= i < |db.templates| ==> db.templates[i].id != id
  {
    var i := FindIndex(db.templates, HasId(id));
    if i < |db.templates| then Some(db.templates[i]) else None
  }

  /** `get_template_by_name(conn, name)`: the first template of that name, `None` when there is none. */
  function GetTemplateByName(db: Database, name: string): (r: Option<Template>)
    reads db
    ensures r.Some? ==> r.value in db.templates && r.value.name == name
    ensures r.None? <==> forall i :: 0 <= i < |db.templates| ==> db.templates[i].name != name
  {
    var i := FindIndex(db.templates, HasName(name));
    if i < |db.templates| then Some(db.templates[i]) else None
  }

  /** With distinct ids, the template found by id is the only row with that id. */
  lemma TemplateByIdUnique(db: Database, id: int, k: nat)
    requires db.Valid()
    requires k < |db.templates| && db.templates[k].id == id
    ensures GetTemplateById(db, id) == Some(db.templates[k])
  {
    var i := FindIndex(db.templates, HasId(id));
    assert i <= k;
    assert TemplateKey(db.templates[i]) == TemplateKey(db.templates[k]);
  }

  // ---------------------------------------------------------------------
  // Questions

  /** `ORDER BY order_index ASC` */
  predicate ByOrderIndex(a: Question, b: Question) {
    a.orderIndex <= b.orderIndex
  }

  lemma ByOrderIndexOrder()
    ensures IsTotalPreorder(ByOrderIndex)
  {
  }

  function OfTemplate(templateId: int): Question -> bool {
    (q: Question) => q.templateId == templateId
  }

  /** `get_template_questions(conn, template_id)`: the template's questions by order index. */
  function GetTemplateQuestions(db: Database, templateId: int): (r: seq<Question>)
    reads db
    ensures SortedBy(r, ByOrderIndex)
    ensures multiset(r) == multiset(Filter(db.questions, OfTemplate(templateId)))
    ensures forall q :: q in r <==> q in db.questions && q.templateId == templateId
  {
    ByOrderIndexOrder();
    var own := Filter(db.questions, OfTemplate(templateId));
    var r := SortBy(own, ByOrderIndex);
    SameElements(r, own);
    r
  }

  /**
   * The order of the questions does not depend on the order they were
   * inserted in: two tables holding the same rows give the same order
   * indexes position by position.
   */
  lemma QuestionsOrderIndependent(db1: Database, db2: Database, templateId: int, i: nat)
    requires multiset(db1.questions) == multiset(db2.questions)
    requires i < |GetTemplateQuestions(db1, templateId)|
    ensures |GetTemplateQuestions(db2, templateId)| == |GetTemplateQuestions(db1, templateId)|
    ensures GetTemplateQuestions(db1, templateId)[i].orderIndex == GetTemplateQuestions(db2, templateId)[i].orderIndex
  {
    var a := GetTemplateQuestions(db1, templateId);
    var b := GetTemplateQuestions(db2, templateId);
    FilterMultiset(db1.questions, db2.questions, OfTemplate(templateId));
    ByOrderIndexOrder();
    SortedPermutationsAgree(a, b, ByOrderIndex, i);
  }

  // ---------------------------------------------------------------------
  // Responses

  /** Decrypted answers: question id (as text) to answer. */
  type Answers = map<string, string>

  /**
   * The `answers` key: missing (a `KeyError`), present with `None`, or a
   * dictionary.
   */
  datatype AnswersField = MissingAnswers | NullAnswers | AnswersDict(dict: Answers)

  /**
   * The keys `save_survey_response` reads. For the four columns a missing
   * key (a `KeyError`) and `None` (refused by the `NOT NULL` column) both
   * fail, so both are `None` here.
   */
  datatype ResponseInput = ResponseInput(
    chatId: Option<int>, templateId: Option<int>, date: Option<string>,
    time: Option<string>, answers: AnswersField)

  /** What `encrypt_data` serialises: the dictionary, or `None`, which `json.dumps` writes as `null`. */
  function Payload(a: AnswersField): (p: Option<Answers>)
    requires !a.MissingAnswers?
    ensures p.Some? <==> a.AnswersDict?
    ensures a.AnswersDict? ==> p.value == a.dict
  {
    if a.AnswersDict? then Some(a.dict) else None
  }

  /**
   * The row `save_survey_response` inserts under `id`, or `None` when a
   * column is missing, the answers key is missing, or encryption raises.
   * Answers that are `None` are encrypted and stored like any others.
   */
  function NewResponse(input: ResponseInput, id: int, encrypt: (Option<Answers>, int) -> Option<string>)
    : (r: Option<Response>)
    ensures r.Some? <==>
      input.chatId.Some? && input.templateId.Some? && input.date.Some? && input.time.Some?
      && !input.answers.MissingAnswers? && encrypt(Payload(input.answers), input.chatId.value).Some?
    ensures r.Some? ==>
      r.value == Response(id, input.chatId.value, input.templateId.value, input.date.value,
                          input.time.value, encrypt(Payload(input.answers), input.chatId.value).value)
  {
    if input.chatId.None? || input.templateId.None? || input.date.None? || input.time.None?
       || input.answers.MissingAnswers? then None
    else
      match encrypt(Payload(input.answers), input.chatId.value)
      case None => None
      case Some(blob) =>
        Some(Response(id, input.chatId.value, input.templateId.value, input.date.value,
                      input.time.value, blob))
  }

  /**
   * Answers that are `None` are saved like a dictionary would be, while a
   * missing answers key is refused.
   */
  lemma NullAnswersSaved(input: ResponseInput, id: int, encrypt: (Option<Answers>, int) -> Option<string>)
    requires input.chatId.Some? && input.templateId.Some? && input.date.Some? && input.time.Some?
    requires encrypt(None, input.chatId.value).Some?
    ensures NewResponse(input.(answers := NullAnswers), id, encrypt).Some?
    ensures NewResponse(input.(answers := NullAnswers), id, encrypt).value.blob == encrypt(None, input.chatId.value).value
    ensures NewResponse(input.(answers := MissingAnswers), id, encrypt).None?
  {
  }

  /**
   * `save_survey_response(conn, response_data)`: inserts one row holding
   * the encrypted answers; on any exception nothing is written.
   */
  method SaveSurveyResponse(db: Database, input: ResponseInput,
                            encrypt: (Option<Answers>, int) -> Option<string>, fault: bool) returns (ok: bool)
    requires db.Valid()
    modifies db
    ensures db.Valid()
    ensures ok <==> !fault && NewResponse(input, old(db.nextResponseId), encrypt).Some?
    ensures ok ==> db.State() == old(db.State()).(
      responses := old(db.responses) + [NewResponse(input, old(db.nextResponseId), encrypt).value],
      nextResponseId := old(db.nextResponseId) + 1)
    ensures !ok ==> db.State() == old(db.State())
  {
    var row := NewResponse(input, db.nextResponseId, encrypt);
    if fault || row.None? {
      return false;
    }
    AppendFresh(db.responses, ResponseKey, db.nextResponseId, row.value);
    db.responses := db.responses + [row.value];
    db.nextResponseId := db.nextResponseId + 1;
    return true;
  }

  /** A returned response: the row without `encrypted_data`, with the decrypted answers. */
  datatype ResponseView = ResponseView(
    id: int, chatId: int, templateId: int, date: string, time: string, answers: Answers)

  /** A decryption counts only when it succeeds and is not empty. */
  predicate Readable(d: Option<Answers>) {
    d.Some? && d.value != map[]
  }

  function ViewOf(r: Response, answers: Answers): ResponseView {
    ResponseView(r.id, r.chatId, r.templateId, r.date, r.time, answers)
  }

  /** The readable responses among `rows`, in order. */
  function Decrypted(rows: seq<Response>, chat: int, decrypt: (string, int) -> Option<Answers>)
    : (r: seq<ResponseView>)
    ensures |r| <= |rows|
  {
    if rows == [] then []
    else
      var last := rows[|rows| - 1];
      Decrypted(rows[..|rows| - 1], chat, decrypt)
        + (if Readable(decrypt(last.blob, chat)) then [ViewOf(last, decrypt(last.blob, chat).value)] else [])
  }

  lemma DecryptedSnoc(rows: seq<Response>, i: nat, chat: int, decrypt: (string, int) -> Option<Answers>)
    requires i < |rows|
    ensures Decrypted(rows[..i + 1], chat, decrypt)
         == Decrypted(rows[..i], chat, decrypt)
            + (if Readable(decrypt(rows[i].blob, chat)) then [ViewOf(rows[i], decrypt(rows[i].blob, chat).value)] else [])
  {
    assert rows[..i + 1][..i] == rows[..i];
  }

  /**
   * Each returned response comes from a row whose blob decrypts to its
   * non-empty answers; the row's other columns are kept.
   */
  lemma {:induction false} DecryptedFromRows(rows: seq<Response>, chat: int,
                                             decrypt: (string, int) -> Option<Answers>, k: nat)
    requires k < |Decrypted(rows, chat, decrypt)|
    ensures var v := Decrypted(rows, chat, decrypt)[k];
      exists i :: 0 <= i < |rows| && v == ViewOf(rows[i], v.answers)
        && decrypt(rows[i].blob, chat) == Some(v.answers) && v.answers != map[]
  {
    var init := rows[..|rows| - 1];
    var v := Decrypted(rows, chat, decrypt)[k];
    if k < |Decrypted(init, chat, decrypt)| {
      DecryptedFromRows(init, chat, decrypt, k);
      var i :| 0 <= i < |init| && Decrypted(init, chat, decrypt)[k] == ViewOf(init[i], v.answers)
        && decrypt(init[i].blob, chat) == Some(v.answers) && v.answers != map[];
      assert rows[i] == init[i];
    } else {
      assert v == ViewOf(rows[|rows| - 1], v.answers);
    }
  }

  /** Every row that decrypts to something non-empty is returned. */
  lemma {:induction false} DecryptedComplete(rows: seq<Response>, chat: int,
                                             decrypt: (string, int) -> Option<Answers>, r: Response)
    requires r in rows && Readable(decrypt(r.blob, chat))
    ensures ViewOf(r, decrypt(r.blob, chat).value) in Decrypted(rows, chat, decrypt)
  {
    var init := rows[..|rows| - 1];
    assert rows == init + [rows[|rows| - 1]];
    if r != rows[|rows| - 1] {
      assert r in init;
      DecryptedComplete(init, chat, decrypt, r);
    }
  }

  /** When every row decrypts to something non-empty, nothing is dropped. */
  lemma {:induction false} DecryptedAll(rows: seq<Response>, chat: int, decrypt: (string, int) -> Option<Answers>)
    requires forall i :: 0 <= i < |rows| ==> Readable(decrypt(rows[i].blob, chat))
    ensures |Decrypted(rows, chat, decrypt)| == |rows|
  {
    if rows != [] {
      DecryptedAll(rows[..|rows| - 1], chat, decrypt);
    }
  }

  /**
   * The decryption loop both response readers run: decrypt each row in
   * query order, keep the readable ones without their blob.
   */
  method DecryptResponses(rows: seq<Response>, chat: int, decrypt: (string, int) -> Option<Answers>)
    returns (views: seq<ResponseView>)
    ensures views == Decrypted(rows, chat, decrypt)
  {
    views := [];
    var i := 0;
    while i < |rows|
      invariant 0 <= i <= |rows|
      invariant views == Decrypted(rows[..i], chat, decrypt)
    {
      var answers := decrypt(rows[i].blob, chat);
      DecryptedSnoc(rows, i, chat, decrypt);
      if answers.Some? && answers.value != map[] {
        views := views + [ViewOf(rows[i], answers.value)];
      }
      i := i + 1;
    }
    assert rows[..i] == rows;
  }

  /** `ORDER BY response_date DESC, response_time DESC` */
  predicate NewestFirst(a: Response, b: Response) {
    PairDesc((a.date, a.time), (b.date, b.time))
  }

  lemma NewestFirstOrder()
    ensures IsTotalPreorder(NewestFirst)
  {
    forall a: Response, b: Response ensures NewestFirst(a, b) || NewestFirst(b, a) {
      PairDescTotal((a.date, a.time), (b.date, b.time));
    }
    forall a: Response, b: Response, c: Response | NewestFirst(a, b) && NewestFirst(b, c)
      ensures NewestFirst(a, c) {
      PairDescTrans((a.date, a.time), (b.date, b.time), (c.date, c.time));
    }
  }

  /**
   * The `WHERE` of `get_user_survey_responses`: a given date wins over a
   * range, and a range applies only when both bounds are given.
   */
  predicate InPeriod(r: Response, chat: int, date: Option<string>, start: Option<string>, end: Option<string>) {
    r.chatId == chat
    && if Given(date) then r.date == date.value
       else if Given(start) && Given(end) then StrLe(start.value, r.date) && StrLe(r.date, end.value)
       else true
  }

  function PeriodOf(chat: int, date: Option<string>, start: Option<string>, end: Option<string>): Response -> bool {
    (r: Response) => InPeriod(r, chat, date, start, end)
  }

  /** The rows `get_user_survey_responses` decrypts, newest first. */
  function UserResponses(responses: seq<Response>, chat: int, date: Option<string>,
                         start: Option<string>, end: Option<string>): (rows: seq<Response>)
    ensures SortedBy(rows, NewestFirst)
    ensures multiset(rows) == multiset(Filter(responses, PeriodOf(chat, date, start, end)))
    ensures forall r :: r in rows <==> r in responses && InPeriod(r, chat, date, start, end)
  {
    NewestFirstOrder();
    var selected := Filter(responses, PeriodOf(chat, date, start, end));
    var rows := SortBy(selected, NewestFirst);
    SameElements(rows, selected);
    rows
  }

  /** A single date makes the range bounds irrelevant. */
  lemma DateBeatsRange(responses: seq<Response>, chat: int, date: string,
                       start: Option<string>, end: Option<string>)
    requires date != ""
    ensures forall r :: (r in UserResponses(responses, chat, Some(date), start, end)
                         <==> r in responses && r.chatId == chat && r.date == date)
  {
  }

  /**
   * `get_user_survey_responses(conn, chat_id, date, start_date, end_date)`:
   * the chat's responses in the period, newest first, decrypted.
   */
  method GetUserSurveyResponses(db: Database, chat: int, date: Option<string>, start: Option<string>,
                                end: Option<string>, decrypt: (string, int) -> Option<Answers>)
    returns (views: seq<ResponseView>)
    ensures views == Decrypted(UserResponses(db.responses, chat, date, start, end), chat, decrypt)
    ensures |views| <= |UserResponses(db.responses, chat, date, start, end)|
  {
    var rows := UserResponses(db.responses, chat, date, start, end);
    views := DecryptResponses(rows, chat, decrypt);
  }

  /** SQL `LIMIT` when `limit` is truthy; a negative limit lifts the bound. */
  function Limited<T(!new)>(rows: seq<T>, limit: Option<int>): (r: seq<T>)
    ensures |r| <= |rows| && r == rows[..|r|]
    ensures limit.Some? && limit.value > 0 ==> |r| == if |rows| < limit.value then |rows| else limit.value
    ensures limit.None? || limit.value <= 0 ==> r == rows
  {
    if limit.Some? && limit.value > 0 then Take(rows, limit.value) else rows
  }

  function ForTemplate(chat: int, templateId: int): Response -> bool {
    (r: Response) => r.chatId == chat && r.templateId == templateId
  }

  /**
   * The rows `get_responses_by_template` decrypts: the chat's responses to
   * the template, newest first; with a positive limit, the newest `limit`
   * of them, and none left out is newer than one returned.
   */
  function TemplateResponses(responses: seq<Response>, chat: int, templateId: int, limit: Option<int>)
    : (rows: seq<Response>)
    ensures SortedBy(rows, NewestFirst)
    ensures multiset(rows) <= multiset(Filter(responses, ForTemplate(chat, templateId)))
    ensures forall r :: r in rows ==> r in responses && r.chatId == chat && r.templateId == templateId
    ensures limit.None? || limit.value <= 0 ==>
      multiset(rows) == multiset(Filter(responses, ForTemplate(chat, templateId)))
    ensures limit.Some? && limit.value > 0 ==>
      |rows| == Min(limit.value, |Filter(responses, ForTemplate(chat, templateId))|)
    ensures forall r, x :: (r in rows && x in responses && x.chatId == chat && x.templateId == templateId
                            && x !in rows) ==> NewestFirst(r, x)
  {
    NewestFirstOrder();
    var own := Filter(responses, ForTemplate(chat, templateId));
    var sorted := SortBy(own, NewestFirst);
    var rows := Limited(sorted, limit);
    LimitedKeeps(sorted, rows, NewestFirst);
    SameElements(sorted, own);
    rows
  }

  function Min(a: int, b: int): int {
    if a < b then a else b
  }

  /**
   * A prefix of a sorted sequence is sorted, a sub-multiset of it, and
   * sorts before every element of the sequence it leaves out.
   */
  lemma LimitedKeeps<T(!new)>(s: seq<T>, rows: seq<T>, le: (T, T) -> bool)
    requires SortedBy(s, le) && |rows| <= |s| && rows == s[..|rows|]
    ensures SortedBy(rows, le)
    ensures multiset(rows) <= multiset(s)
    ensures forall x :: x in rows ==> x in s
    ensures forall r, x :: r in rows && x in s && x !in rows ==> le(r, x)
  {
    var n := |rows|;
    assert s == rows + s[n..];
    assert multiset(s) == multiset(rows) + multiset(s[n..]);
    forall r, x | r in rows && x in s && x !in rows ensures le(r, x) {
      var i :| 0 <= i < n && rows[i] == r;
      var j :| 0 <= j < |s| && s[j] == x;
      assert j >= n;
    }
  }

  /**
   * `get_responses_by_template(conn, chat_id, template_id, limit)`: at
   * most `limit` of the chat's responses to the template, newest first.
   */
  method GetResponsesByTemplate(db: Database, chat: int, templateId: int, limit: Option<int>,
                                decrypt: (string, int) -> Option<Answers>)
    returns (views: seq<ResponseView>)
    ensures views == Decrypted(TemplateResponses(db.responses, chat, templateId, limit), chat, decrypt)
    ensures limit.Some? && limit.value > 0 ==> |views| <= limit.value
    ensures forall k :: 0 <= k < |views| ==> views[k].chatId == chat && views[k].templateId == templateId
    ensures limit.None? || limit.value <= 0 ==>
      forall r :: (r in db.responses && r.chatId == chat && r.templateId == templateId
                   && Readable(decrypt(r.blob, chat))) ==> ViewOf(r, decrypt(r.blob, chat).value) in views
  {
    var rows := TemplateResponses(db.responses, chat, templateId, limit);
    views := DecryptResponses(rows, chat, decrypt);
    if limit.None? || limit.value <= 0 {
      forall r | r in db.responses && r.chatId == chat && r.templateId == templateId
        && Readable(decrypt(r.blob, chat))
        ensures ViewOf(r, decrypt(r.blob, chat).value) in views {
        var own := Filter(db.responses, ForTemplate(chat, templateId));
        assert r in own;
        SameElements(rows, own);
        DecryptedComplete(rows, chat, decrypt, r);
      }
    }
    forall k | 0 <= k < |views| ensures views[k].chatId == chat && views[k].templateId == templateId {
      DecryptedFromRows(rows, chat, decrypt, k);
      var i :| 0 <= i < |rows| && views[k] == ViewOf(rows[i], views[k].answers);
      assert rows[i] in rows;
    }
  }

  /** Some row has the id and belongs to the chat. */
  predicate OwnsResponse(responses: seq<Response>, id: int, chat: int) {
    exists i :: 0 <= i < |responses| && responses[i].id == id && responses[i].chatId == chat
  }

  function ResponseIdIs(id: int): Response -> bool {
    (r: Response) => r.id == id
  }

  /**
   * `delete_survey_response(conn, response_id, chat_id)`: deletes the
   * response only when it exists and belongs to the chat.
   */
  method DeleteSurveyResponse(db: Database, id: int, chat: int, fault: bool) returns (ok: bool)
    requires db.Valid()
    modifies db
    ensures db.Valid()
    ensures ok <==> !fault && OwnsResponse(old(db.responses), id, chat)
    ensures ok ==> db.State() == old(db.State()).(responses := Filter(old(db.responses), KeyOtherThan(ResponseKey, id)))
    ensures ok ==> |db.responses| == |old(db.responses)| - 1
    ensures !ok ==> db.State() == old(db.State())
  {
    if fault {
      return false;
    }
    var i := FindIndex(db.responses, ResponseIdIs(id));
    if i == |db.responses| {
      return false;
    }
    if db.responses[i].chatId != chat {
      assert forall j :: 0 <= j < |db.responses| && db.responses[j].id == id ==> j == i by {
        forall j | 0 <= j < |db.responses| && db.responses[j].id == id ensures j == i {
          assert ResponseKey(db.responses[j]) == ResponseKey(db.responses[i]);
        }
      }
      return false;
    }
    FilterIdTable(db.responses, ResponseKey, db.nextResponseId, KeyOtherThan(ResponseKey, id));
    FilterOutOne(db.responses, ResponseKey, id, i);
    db.responses := Filter(db.responses, KeyOtherThan(ResponseKey, id));
    return true;
  }
}
