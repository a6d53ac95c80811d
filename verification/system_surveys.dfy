/**
 * The four built-in survey templates (src/data/system_surveys.py) and the
 * seeding routine that writes them into `survey_templates` and
 * `survey_questions` once.
 */
module SystemSurveys {
  import opened Base
  import opened Strings
  import opened Db

  // ---------------------------------------------------------------------
  // The `config` column: `json.dumps` of a small dictionary

  /** The two shapes of question configuration the builders use. */
  datatype ConfigSpec = Range(min: int, max: int) | Options(options: seq<string>, multiple: bool)

  /** A lower-case hexadecimal digit. */
  function HexDigit(d: nat): (c: char)
    requires d < 16
    ensures '0' <= c <= '9' || 'a' <= c <= 'f'
  {
    if d < 10 then '0' + d as char else 'a' + (d - 10) as char
  }

  /** Four lower-case hexadecimal digits of a UTF-16 code unit. */
  function Hex4(n: nat): (r: string)
    requires n < 0x10000
    ensures |r| == 4 && forall k :: 0 <= k < 4 ==> ' ' <= r[k] <= '~'
  {
    var a := n / 0x1000;
    var b := n % 0x1000;
    [HexDigit(a), HexDigit(b / 0x100), HexDigit(b % 0x100 / 16), HexDigit(n % 16)]
  }

  /** The two UTF-16 surrogates of a code point above the Basic Multilingual Plane. */
  function Surrogates(v: nat): (r: (nat, nat))
    requires v < 0x100000
    ensures r.0 < 0x10000 && r.1 < 0x10000
  {
    (0xD800 + v / 0x400, 0xDC00 + v % 0x400)
  }

  /**
   * One character as `json.dumps` writes it with its default `ensure_ascii`:
   * printable ASCII as itself, the quote and the backslash escaped, the
   * five short control escapes, and everything else as `\uXXXX` (a
   * surrogate pair above the Basic Multilingual Plane).
   */
  function EscapeChar(c: char): (r: string)
    ensures forall k :: 0 <= k < |r| ==> ' ' <= r[k] <= '~'
  {
    if c == '"' then "\\\""
    else if c == '\\' then "\\\\"
    else if ' ' <= c <= '~' then [c]
    else if c == '\n' then "\\n"
    else if c == '\r' then "\\r"
    else if c == '\t' then "\\t"
    else if c as int == 8 then "\\b"
    else if c as int == 12 then "\\f"
    else if (c as int) < 0x10000 then "\\u" + Hex4(c as int)
    else
      var p := Surrogates(c as int - 0x10000);
      "\\u" + Hex4(p.0) + "\\u" + Hex4(p.1)
  }

  function EscapeAll(s: string): (r: string)
    ensures forall k :: 0 <= k < |r| ==> ' ' <= r[k] <= '~'
  {
    if s == [] then [] else EscapeChar(s[0]) + EscapeAll(s[1..])
  }

  /** A JSON string literal. */
  function JsonString(s: string): string {
    "\"" + EscapeAll(s) + "\""
  }

  function JsonStrings(xs: seq<string>): string {
    if xs == [] then [] else if |xs| == 1 then JsonString(xs[0]) else JsonString(xs[0]) + ", " + JsonStrings(xs[1..])
  }

  /** `json.dumps` of the configuration dictionary, keys in insertion order. */
  function ConfigJson(c: ConfigSpec): string
  {
    match c
    case Range(lo, hi) => "{\"min\": " + IntToStr(lo) + ", \"max\": " + IntToStr(hi) + "}"
    case Options(os, multiple) =>
      "{\"options\": [" + JsonStrings(os) + "], \"multiple\": " + (if multiple then "true" else "false") + "}"
  }

  // ---------------------------------------------------------------------
  // The builders

  /** The four built-in journals. */
  datatype Journal = Cbt | Addiction | Gratitude | Sleep

  /**
   * A question of a built-in template, before it is given an id. Its
   * `question_text` and `help_text` are looked up in `Wording` by journal
   * and position.
   */
  datatype QuestionSpec = QuestionSpec(
    journal: Journal, kind: string, orderIndex: int, isRequired: bool, config: Option<ConfigSpec>)

  /** A built-in template with its questions. */
  datatype TemplateSpec = TemplateSpec(
    name: string, description: string, icon: string, questions: seq<QuestionSpec>)

  const CbtName: string := "КПТ дневник"
  const AddictionName: string := "Дневник зависимости"
  const GratitudeName: string := "Дневник благодарности"
  const SleepName: string := "Дневник сна"

  /** Each question's `order_index` is its 1-based position. */
  predicate Numbered(qs: seq<QuestionSpec>) {
    forall i :: 0 <= i < |qs| ==> qs[i].orderIndex == i + 1
  }

  function Text(j: Journal, orderIndex: int, required: bool): QuestionSpec {
    QuestionSpec(j, "text", orderIndex, required, None)
  }

  function Numeric(j: Journal, orderIndex: int, lo: int, hi: int): QuestionSpec {
    QuestionSpec(j, "numeric", orderIndex, true, Some(Range(lo, hi)))
  }

  function YesNo(j: Journal, orderIndex: int): QuestionSpec {
    QuestionSpec(j, "yes_no", orderIndex, true, None)
  }

  function Choice(j: Journal, orderIndex: int, options: seq<string>): QuestionSpec {
    QuestionSpec(j, "choice", orderIndex, true, Some(Options(options, true)))
  }

  function Time(j: Journal, orderIndex: int): QuestionSpec {
    QuestionSpec(j, "time", orderIndex, true, None)
  }

  /**
   * The `question_text` and `help_text` of question `n` of a built-in
   * journal, as its builder writes them; every built-in question has both.
   * A position the journal does not have reads as two empty strings.
   */
  function Wording(j: Journal, n: int): (string, string) {
    match j
    case Cbt =>
      if n == 1 then ("Опишите ситуацию, которая вызвала эмоциональную реакцию", "Что произошло? Где? Когда? С кем?")
      else if n == 2 then ("Какие автоматические мысли возникли?", "Что вы подумали в тот момент?")
      else if n == 3 then ("Какие эмоции вы испытывали?", "Злость, грусть, тревога, страх и т.д.")
      else if n == 4 then ("Оцените интенсивность эмоций (1-10)", "1 - минимальная, 10 - максимальная")
      else if n == 5 then ("Какие когнитивные искажения вы заметили?", "Можно выбрать несколько")
      else if n == 6 then ("Альтернативная, более сбалансированная мысль", "Как можно посмотреть на ситуацию иначе?")
      else if n == 7 then ("Переоцените интенсивность эмоций сейчас (1-10)", "Изменилась ли интенсивность после рефрейминга?")
      else ("", "")
    case Addiction =>
      if n == 1 then ("Было ли сегодня влечение?", "Ответьте да или нет")
      else if n == 2 then ("Максимальная интенсивность влечения (0-10)", "0 - не было, 10 - максимальное")
      else if n == 3 then ("Что спровоцировало влечение?", "Можно выбрать несколько триггеров")
      else if n == 4 then ("Какие стратегии помогли справиться?", "Опишите, что вам помогло")
      else if n == 5 then ("Были ли срывы?", "Честно ответьте да или нет")
      else if n == 6 then ("Если да, опишите ситуацию", "Что произошло? Без самоосуждения")
      else if n == 7 then ("Что можно сделать иначе в следующий раз?", "План действий на будущее")
      else ("", "")
    case Gratitude =>
      if n == 1 then ("За что я благодарен сегодня? (3 вещи)", "Запишите минимум три вещи, за которые вы благодарны")
      else if n == 2 then ("Кто сделал мой день лучше?", "Люди, которые помогли или поддержали вас")
      else if n == 3 then ("Какое маленькое удовольствие я получил сегодня?", "Вкусная еда, красивый закат, приятная музыка...")
      else ("", "")
    case Sleep =>
      if n == 1 then ("Во сколько вы легли спать?", "Формат: ЧЧ:ММ, например 23:30")
      else if n == 2 then ("Во сколько проснулись?", "Формат: ЧЧ:ММ, например 07:00")
      else if n == 3 then ("Сколько раз просыпались ночью?", "0 если не просыпались")
      else if n == 4 then ("Качество сна (1-10)", "1 - очень плохое, 10 - отличное")
      else if n == 5 then ("Были ли кошмары?", "Ответьте да или нет")
      else if n == 6 then ("Что делали перед сном?", "Можно выбрать несколько активностей")
      else ("", "")
  }

  /** `get_cbt_journal_template()`: the cognitive-behavioural therapy journal. */
  function CbtJournal(): (t: TemplateSpec)
    ensures t.name == CbtName
    ensures |t.questions| == 7 && Numbered(t.questions)
  {
    TemplateSpec(
      CbtName,
      "Когнитивно-поведенческая терапия для работы с автоматическими мыслями",
      "🧠",
      [ Text(Cbt, 1, true),
        Text(Cbt, 2, true),
        Text(Cbt, 3, true),
        Numeric(Cbt, 4, 1, 10),
        Choice(Cbt, 5, ["Чёрно-белое мышление", "Катастрофизация", "Персонализация", "Чтение мыслей",
                        "Долженствование", "Фильтрация", "Другое"]),
        Text(Cbt, 6, true),
        Numeric(Cbt, 7, 1, 10) ])
  }

  /** `get_addiction_journal_template()`: cravings, triggers and coping. */
  function AddictionJournal(): (t: TemplateSpec)
    ensures t.name == AddictionName
    ensures |t.questions| == 7 && Numbered(t.questions)
  {
    TemplateSpec(
      AddictionName,
      "Отслеживание влечения, триггеров и стратегий совладания",
      "💪",
      [ YesNo(Addiction, 1),
        Numeric(Addiction, 2, 0, 10),
        Choice(Addiction, 3, ["Стресс", "Скука", "Социальная ситуация", "Определенное место",
                              "Эмоциональное состояние", "Физический дискомфорт", "Другое"]),
        Text(Addiction, 4, true),
        YesNo(Addiction, 5),
        Text(Addiction, 6, false),
        Text(Addiction, 7, true) ])
  }

  /** `get_gratitude_journal_template()` */
  function GratitudeJournal(): (t: TemplateSpec)
    ensures t.name == GratitudeName
    ensures |t.questions| == 3 && Numbered(t.questions)
  {
    TemplateSpec(
      GratitudeName,
      "Ежедневная практика благодарности для улучшения настроения",
      "🙏",
      [ Text(Gratitude, 1, true),
        Text(Gratitude, 2, true),
        Text(Gratitude, 3, true) ])
  }

  /** `get_sleep_journal_template()` */
  function SleepJournal(): (t: TemplateSpec)
    ensures t.name == SleepName
    ensures |t.questions| == 6 && Numbered(t.questions)
  {
    TemplateSpec(
      SleepName,
      "Отслеживание качества и паттернов сна",
      "😴",
      [ Time(Sleep, 1),
        Time(Sleep, 2),
        Numeric(Sleep, 3, 0, 20),
        Numeric(Sleep, 4, 1, 10),
        YesNo(Sleep, 5),
        Choice(Sleep, 6, ["Читал", "Смотрел телефон", "Медитировал", "Смотрел ТВ", "Разговаривал", "Другое"]) ])
  }

  /** The number of questions over a list of templates. */
  function TotalQuestions(specs: seq<TemplateSpec>): nat {
    if specs == [] then 0 else TotalQuestions(specs[..|specs| - 1]) + |specs[|specs| - 1].questions|
  }

  /** No two templates of the list share a name. */
  predicate NamesDistinct(specs: seq<TemplateSpec>) {
    forall i, j :: 0 <= i < j < |specs| ==> specs[i].name != specs[j].name
  }

  /** The list `load_system_surveys` walks, in its order. */
  function SystemTemplates(): (r: seq<TemplateSpec>)
    ensures |r| == 4
    ensures forall i :: 0 <= i < |r| ==> Numbered(r[i].questions)
  {
    [CbtJournal(), AddictionJournal(), GratitudeJournal(), SleepJournal()]
  }

  /** The four built-in names differ. */
  lemma SystemNamesDistinct()
    ensures NamesDistinct(SystemTemplates())
  {
    var names := [CbtName, AddictionName, GratitudeName, SleepName];
    assert |CbtName| == 11 && |AddictionName| == 19 && |GratitudeName| == 21 && |SleepName| == 11;
    assert CbtName[0] != SleepName[0];
    forall i, j | 0 <= i < j < 4 ensures names[i] != names[j] {
    }
  }

  /** The built-in templates hold 7, 7, 3 and 6 questions: 23 in all. */
  lemma SystemQuestionCount()
    ensures TotalQuestions(SystemTemplates()) == 23
  {
    var r := SystemTemplates();
    assert r[..1][..0] == [];
    assert TotalQuestions(r[..1]) == 7;
    assert r[..2][..1] == r[..1];
    assert TotalQuestions(r[..2]) == 14;
    assert r[..3][..2] == r[..2];
    assert TotalQuestions(r[..3]) == 17;
  }

  // ---------------------------------------------------------------------
  // load_system_surveys

  /** `SELECT id FROM survey_templates WHERE name = ? AND is_system = 1` finds a row. */
  predicate SystemNamed(templates: seq<Template>, name: string) {
    exists i :: 0 <= i < |templates| && templates[i].isSystem && templates[i].name == name
  }

  /** The `survey_templates` row inserted for a built-in template. */
  function TemplateRow(id: int, s: TemplateSpec): Template {
    Template(id, s.name, Some(s.description), true, None, Some(s.icon), true)
  }

  /** The `survey_questions` row inserted for a question of a built-in template. */
  function QuestionRow(id: int, templateId: int, q: QuestionSpec): Question {
    var (text, help) := Wording(q.journal, q.orderIndex);
    Question(id, templateId, text, q.kind, q.orderIndex, q.isRequired,
             if q.config.Some? then Some(ConfigJson(q.config.value)) else None, Some(help))
  }

  /**
   * The tables after inserting the questions `qs` of template `templateId`
   * one by one: consecutive fresh ids, in the builder's order, every row
   * pointing at that template, and nothing else changed.
   */
  function AddQuestions(t: Tables, templateId: int, qs: seq<QuestionSpec>): (r: Tables)
    ensures r == t.(questions := r.questions, nextQuestionId := r.nextQuestionId)
    ensures r.nextQuestionId == t.nextQuestionId + |qs|
    ensures |r.questions| == |t.questions| + |qs| && r.questions[..|t.questions|] == t.questions
    ensures forall k :: 0 <= k < |qs| ==>
      r.questions[|t.questions| + k] == QuestionRow(t.nextQuestionId + k, templateId, qs[k])
    ensures ValidTables(t) ==> ValidTables(r)
  {
    if qs == [] then t
    else
      var u := AddQuestions(t, templateId, qs[..|qs| - 1]);
      var row := QuestionRow(u.nextQuestionId, templateId, qs[|qs| - 1]);
      AppendQuestionValid(u, row);
      u.(questions := u.questions + [row], nextQuestionId := u.nextQuestionId + 1)
  }

  /** Inserting one more question appends its row under the next id. */
  lemma AddQuestionsStep(t: Tables, templateId: int, qs: seq<QuestionSpec>, j: nat)
    requires j < |qs|
    ensures var u := AddQuestions(t, templateId, qs[..j]);
      AddQuestions(t, templateId, qs[..j + 1])
      == u.(questions := u.questions + [QuestionRow(u.nextQuestionId, templateId, qs[j])],
            nextQuestionId := u.nextQuestionId + 1)
  {
    assert qs[..j + 1][..j] == qs[..j];
  }

  lemma AppendQuestionValid(t: Tables, row: Question)
    requires row.id == t.nextQuestionId
    ensures ValidTables(t) ==>
      ValidTables(t.(questions := t.questions + [row], nextQuestionId := t.nextQuestionId + 1))
  {
    if ValidTables(t) {
      AppendFresh(t.questions, QuestionKey, t.nextQuestionId, row);
    }
  }

  lemma AppendTemplateValid(t: Tables, row: Template)
    requires row.id == t.nextTemplateId
    ensures ValidTables(t) ==>
      ValidTables(t.(templates := t.templates + [row], nextTemplateId := t.nextTemplateId + 1))
  {
    if ValidTables(t) {
      AppendFresh(t.templates, TemplateKey, t.nextTemplateId, row);
    }
  }

  /** The tables after one pass of the loop body for the built-in template `s`. */
  function LoadOne(t: Tables, s: TemplateSpec): (r: Tables)
    ensures SystemNamed(t.templates, s.name) ==> r == t
    ensures !SystemNamed(t.templates, s.name) ==>
      r.templates == t.templates + [TemplateRow(t.nextTemplateId, s)]
      && r.nextTemplateId == t.nextTemplateId + 1
      && r == t.(templates := r.templates, nextTemplateId := r.nextTemplateId,
                 questions := r.questions, nextQuestionId := r.nextQuestionId)
      && r.nextQuestionId == t.nextQuestionId + |s.questions|
      && |r.questions| == |t.questions| + |s.questions| && r.questions[..|t.questions|] == t.questions
      && forall k :: 0 <= k < |s.questions| ==>
           r.questions[|t.questions| + k] == QuestionRow(t.nextQuestionId + k, t.nextTemplateId, s.questions[k])
    ensures ValidTables(t) ==> ValidTables(r)
  {
    if SystemNamed(t.templates, s.name) then t
    else
      var id := t.nextTemplateId;
      AppendTemplateValid(t, TemplateRow(id, s));
      AddQuestions(t.(templates := t.templates + [TemplateRow(id, s)], nextTemplateId := id + 1), id, s.questions)
  }

  /** The tables after the loop has gone through `specs`. */
  function LoadAll(t: Tables, specs: seq<TemplateSpec>): Tables {
    if specs == [] then t else LoadOne(LoadAll(t, specs[..|specs| - 1]), specs[|specs| - 1])
  }

  /** One more pass of the loop loads one more template. */
  lemma LoadAllStep(t: Tables, specs: seq<TemplateSpec>, i: nat)
    requires i < |specs|
    ensures LoadAll(t, specs[..i + 1]) == LoadOne(LoadAll(t, specs[..i]), specs[i])
  {
    assert specs[..i + 1][..i] == specs[..i];
  }

  /**
   * Loading only appends templates, and every added one is an active
   * system template named after one of the specs.
   */
  lemma {:induction false} LoadAllAppends(t: Tables, specs: seq<TemplateSpec>)
    ensures var r := LoadAll(t, specs);
      |t.templates| <= |r.templates| && r.templates[..|t.templates|] == t.templates
      && forall i :: |t.templates| <= i < |r.templates| ==> Added(r.templates[i], specs)
  {
    if specs != [] {
      var init := specs[..|specs| - 1];
      var s := specs[|specs| - 1];
      LoadAllAppends(t, init);
      var u := LoadAll(t, init);
      var r := LoadOne(u, s);
      assert r == LoadAll(t, specs);
      forall i | |t.templates| <= i < |r.templates| ensures Added(r.templates[i], specs) {
        if i < |u.templates| {
          assert r.templates[i] == u.templates[i];
          AddedLonger(u.templates[i], init, specs);
        } else {
          assert r.templates[i] == TemplateRow(u.nextTemplateId, s);
        }
      }
    }
  }

  /** An active system template named after one of the specs. */
  predicate Added(row: Template, specs: seq<TemplateSpec>) {
    row.isSystem && row.isActive && exists j :: 0 <= j < |specs| && row.name == specs[j].name
  }

  lemma AddedLonger(row: Template, init: seq<TemplateSpec>, specs: seq<TemplateSpec>)
    requires Added(row, init) && |init| <= |specs| && specs[..|init|] == init
    ensures Added(row, specs)
  {
    var j :| 0 <= j < |init| && row.name == init[j].name;
    assert specs[j] == init[j];
  }

  /** After loading, each spec's name is present as a system template. */
  lemma {:induction false} LoadAllNames(t: Tables, specs: seq<TemplateSpec>)
    ensures forall j :: 0 <= j < |specs| ==> SystemNamed(LoadAll(t, specs).templates, specs[j].name)
  {
    if specs != [] {
      var init := specs[..|specs| - 1];
      var s := specs[|specs| - 1];
      LoadAllNames(t, init);
      var u := LoadAll(t, init);
      var r := LoadOne(u, s);
      assert r == LoadAll(t, specs);
      forall j | 0 <= j < |specs| ensures SystemNamed(r.templates, specs[j].name) {
        if j < |init| {
          assert specs[j] == init[j];
          var k :| 0 <= k < |u.templates| && u.templates[k].isSystem && u.templates[k].name == init[j].name;
          assert r.templates[k] == u.templates[k];
        } else if !SystemNamed(u.templates, s.name) {
          assert r.templates[|u.templates|] == TemplateRow(u.nextTemplateId, s);
        }
      }
    }
  }

  /** When every name is already present as a system template, loading changes nothing. */
  lemma {:induction false} LoadAllSkips(t: Tables, specs: seq<TemplateSpec>)
    requires forall j :: 0 <= j < |specs| ==> SystemNamed(t.templates, specs[j].name)
    ensures LoadAll(t, specs) == t
  {
    if specs != [] {
      LoadAllSkips(t, specs[..|specs| - 1]);
    }
  }

  /** A second run of the seeding adds nothing. */
  lemma LoadTwice(t: Tables, specs: seq<TemplateSpec>)
    ensures LoadAll(LoadAll(t, specs), specs) == LoadAll(t, specs)
  {
    LoadAllNames(t, specs);
    LoadAllSkips(LoadAll(t, specs), specs);
  }

  /**
   * On tables without system templates of these names, every template of
   * a list with distinct names is inserted with all its questions.
   */
  lemma {:induction false} LoadAllCounts(t: Tables, specs: seq<TemplateSpec>)
    requires NamesDistinct(specs)
    requires forall j :: 0 <= j < |specs| ==> !SystemNamed(t.templates, specs[j].name)
    ensures |LoadAll(t, specs).templates| == |t.templates| + |specs|
    ensures |LoadAll(t, specs).questions| == |t.questions| + TotalQuestions(specs)
  {
    if specs != [] {
      var init := specs[..|specs| - 1];
      var s := specs[|specs| - 1];
      assert NamesDistinct(init) by {
        forall i, j | 0 <= i < j < |init| ensures init[i].name != init[j].name {
          assert init[i] == specs[i] && init[j] == specs[j];
        }
      }
      assert forall j :: 0 <= j < |init| ==> init[j] == specs[j];
      LoadAllCounts(t, init);
      NotNamedAfterLoad(t, init, s.name);
      var u := LoadAll(t, init);
      assert LoadAll(t, specs) == LoadOne(u, s);
    }
  }

  /** Loading templates of other names does not add a system template of this one. */
  lemma NotNamedAfterLoad(t: Tables, specs: seq<TemplateSpec>, name: string)
    requires !SystemNamed(t.templates, name)
    requires forall j :: 0 <= j < |specs| ==> specs[j].name != name
    ensures !SystemNamed(LoadAll(t, specs).templates, name)
  {
    LoadAllAppends(t, specs);
    var r := LoadAll(t, specs).templates;
    forall i | 0 <= i < |r| && r[i].isSystem ensures r[i].name != name {
      if i < |t.templates| {
        assert r[i] == t.templates[i];
      } else {
        assert Added(r[i], specs);
      }
    }
  }

  /** On tables without system templates, the seeding adds 4 templates and 23 questions. */
  lemma FirstRun(t: Tables)
    requires forall i :: 0 <= i < |t.templates| ==> !t.templates[i].isSystem
    ensures |LoadAll(t, SystemTemplates()).templates| == |t.templates| + 4
    ensures |LoadAll(t, SystemTemplates()).questions| == |t.questions| + 23
  {
    SystemNamesDistinct();
    LoadAllCounts(t, SystemTemplates());
    SystemQuestionCount();
  }

  /** A user's template with the same name as a built-in one does not stop it being added. */
  lemma UserTemplateDoesNotBlock(t: Tables, s: TemplateSpec)
    requires forall i :: 0 <= i < |t.templates| && t.templates[i].name == s.name ==> !t.templates[i].isSystem
    ensures LoadOne(t, s).templates == t.templates + [TemplateRow(t.nextTemplateId, s)]
  {
  }

  /** The inner loop: inserts the questions of template `templateId` in order. */
  method InsertQuestions(db: Database, templateId: int, qs: seq<QuestionSpec>)
    requires db.Valid()
    modifies db
    ensures db.Valid()
    ensures db.State() == AddQuestions(old(db.State()), templateId, qs)
  {
    ghost var start := db.State();
    var j := 0;
    while j < |qs|
      invariant 0 <= j <= |qs|
      invariant db.State() == AddQuestions(start, templateId, qs[..j])
    {
      AddQuestionsStep(start, templateId, qs, j);
      ghost var after := db.State().(questions := db.questions + [QuestionRow(db.nextQuestionId, templateId, qs[j])],
                                     nextQuestionId := db.nextQuestionId + 1);
      db.questions := db.questions + [QuestionRow(db.nextQuestionId, templateId, qs[j])];
      db.nextQuestionId := db.nextQuestionId + 1;
      assert db.State() == after;
      j := j + 1;
    }
    assert qs[..j] == qs;
  }

  /** One pass of the outer loop: skips a template whose name is taken by a system template. */
  method LoadTemplate(db: Database, s: TemplateSpec)
    requires db.Valid()
    modifies db
    ensures db.Valid()
    ensures db.State() == LoadOne(old(db.State()), s)
  {
    if SystemNamed(db.templates, s.name) {
      return;
    }
    var templateId := db.nextTemplateId;
    AppendTemplateValid(db.State(), TemplateRow(templateId, s));
    db.templates := db.templates + [TemplateRow(templateId, s)];
    db.nextTemplateId := templateId + 1;
    InsertQuestions(db, templateId, s.questions);
  }

  /** The loop of `load_system_surveys` over a list of templates. */
  method LoadTemplates(db: Database, specs: seq<TemplateSpec>)
    requires db.Valid()
    modifies db
    ensures db.Valid()
    ensures db.State() == LoadAll(old(db.State()), specs)
  {
    ghost var start := db.State();
    var i := 0;
    while i < |specs|
      invariant 0 <= i <= |specs|
      invariant db.State() == LoadAll(start, specs[..i])
      invariant db.Valid()
    {
      LoadAllStep(start, specs, i);
      LoadTemplate(db, specs[i]);
      i := i + 1;
    }
    assert specs[..i] == specs;
  }

  /** `load_system_surveys(conn)`: the loop over the four built-in templates. */
  method LoadSystemSurveys(db: Database)
    requires db.Valid()
    modifies db
    ensures db.Valid()
    ensures db.State() == LoadAll(old(db.State()), SystemTemplates())
  {
    LoadTemplates(db, SystemTemplates());
  }
}
