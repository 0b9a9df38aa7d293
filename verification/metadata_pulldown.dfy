/** The survey tabulation of the American Gut metadata pulldown
    (`gather_agsurveys`): two long-format answer streams are merged, answers
    to MULTIPLE questions are tagged with a `preset` equal to their own
    response, and the records are pivoted into a wide table with one row per
    survey and one column per (question, preset).

    The database reads are parameters: the rows of `ag.survey_answers`, of
    `ag.survey_answers_other`, and of the join that lists the possible
    responses of MULTIPLE questions. */
module MetadataPulldown {
  import opened Results

  type SurveyId = string
  type QuestionId = int

  /** One row of `ag.survey_answers` or `ag.survey_answers_other`. */
  datatype Answer = Answer(questionId: QuestionId, surveyId: SurveyId, response: string)

  /** One row of the possible-responses join restricted to MULTIPLE questions. */
  datatype PossibleResponse = PossibleResponse(questionId: QuestionId, response: string)

  /** An answer with its `preset`: the response itself for a MULTIPLE
      question, absent (a missing value) otherwise. */
  datatype TaggedAnswer = TaggedAnswer(questionId: QuestionId, surveyId: SurveyId, response: string, preset: Option<string>)

  /** A column of the wide table: the second index level is empty for a
      single-answer question and holds the chosen value for a MULTIPLE one. */
  datatype ColKey = Single(question: QuestionId) | Multi(question: QuestionId, value: string)

  /** A survey's cells; a column missing from the map is an empty cell. */
  type Row = map<ColKey, string>

  /** The wide table, rows keyed by survey id. */
  type Table = map<SurveyId, Row>

  /** `unstack` refuses an index with two records for the same cell. */
  datatype PivotError = DuplicateEntries

  // ---------------------------------------------------------------------
  // Merging the two answer streams
  // ---------------------------------------------------------------------

  /** `pd.concat([answers, answers_other], ignore_index=True)`. */
  function ConcatAnswers(answers: seq<Answer>, answersOther: seq<Answer>): (all: seq<Answer>)
    ensures |all| == |answers| + |answersOther|
    ensures all[..|answers|] == answers && all[|answers|..] == answersOther
    ensures multiset(all) == multiset(answers) + multiset(answersOther)
  {
    answers + answersOther
  }

  // ---------------------------------------------------------------------
  // The set of MULTIPLE questions
  // ---------------------------------------------------------------------

  /** The question ids listed by the MULTIPLE possible-responses join. */
  function MultipleQuestionIds(rows: seq<PossibleResponse>): (multi: set<QuestionId>)
    ensures forall q :: q in multi <==> exists i :: 0 <= i < |rows| && rows[i].questionId == q
  {
    set r | r in rows :: r.questionId
  }

  /** `survey_question_id.unique()`: each listed question id once. */
  method UniqueQuestionIds(rows: seq<PossibleResponse>) returns (uni: seq<QuestionId>)
    ensures forall i, j :: 0 <= i < j < |uni| ==> uni[i] != uni[j]
    ensures forall q :: q in uni <==> q in MultipleQuestionIds(rows)
  {
    uni := [];
    var k := 0;
    while k < |rows|
      invariant 0 <= k <= |rows|
      invariant forall i, j :: 0 <= i < j < |uni| ==> uni[i] != uni[j]
      invariant forall q :: q in uni <==> exists i :: 0 <= i < k && rows[i].questionId == q
    {
      var q := rows[k].questionId;
      if q !in uni {
        uni := uni + [q];
      }
      k := k + 1;
    }
  }

  // ---------------------------------------------------------------------
  // Tagging answers to MULTIPLE questions
  // ---------------------------------------------------------------------

  /** Copies the response into `preset` when the question is MULTIPLE. */
  function TagAnswer(a: Answer, multi: set<QuestionId>): (t: TaggedAnswer)
    ensures t.questionId == a.questionId && t.surveyId == a.surveyId && t.response == a.response
    ensures t.preset.Some? <==> a.questionId in multi
    ensures t.preset.Some? ==> t.preset.value == a.response
  {
    TaggedAnswer(a.questionId, a.surveyId, a.response,
                 if a.questionId in multi then Some(a.response) else None)
  }

  /** Tags every answer of the merged stream, keeping the order. */
  function TagAll(answers: seq<Answer>, multi: set<QuestionId>): (tagged: seq<TaggedAnswer>)
    ensures |tagged| == |answers|
    ensures forall i :: 0 <= i < |answers| ==> tagged[i] == TagAnswer(answers[i], multi)
  {
    if answers == [] then []
    else TagAll(answers[..|answers| - 1], multi) + [TagAnswer(answers[|answers| - 1], multi)]
  }

  // ---------------------------------------------------------------------
  // The pivot
  // ---------------------------------------------------------------------

  /** The column a tagged record lands in. */
  function Column(t: TaggedAnswer): ColKey
  {
    match t.preset
    case None => Single(t.questionId)
    case Some(v) => Multi(t.questionId, v)
  }

  /** No two records address the same (survey, column) cell, which is what
      `unstack` needs of the index (survey_id, survey_question_id, preset). */
  predicate UniqueCells(ts: seq<TaggedAnswer>)
  {
    forall i, j | 0 <= i < j < |ts| :: ts[i].surveyId != ts[j].surveyId || Column(ts[i]) != Column(ts[j])
  }

  /** The distinct survey ids of a record stream. */
  function SurveyIds(ts: seq<TaggedAnswer>): set<SurveyId>
  {
    set t | t in ts :: t.surveyId
  }

  /** The columns occupied by survey `s` in a record stream. */
  function ColumnsOf(ts: seq<TaggedAnswer>, s: SurveyId): set<ColKey>
  {
    set t | t in ts && t.surveyId == s :: Column(t)
  }

  /** The column index of a wide table: every column some row occupies. */
  function Columns(table: Table): set<ColKey>
  {
    set s, c | s in table && c in table[s] :: c
  }

  lemma SnocSets(init: seq<TaggedAnswer>, t: TaggedAnswer)
    ensures SurveyIds(init + [t]) == SurveyIds(init) + {t.surveyId}
    ensures forall s :: ColumnsOf(init + [t], s) ==
                        ColumnsOf(init, s) + (if t.surveyId == s then {Column(t)} else {})
  {
    var ts := init + [t];
    assert forall u :: u in ts <==> u in init || u == t;
  }

  /** One row per survey of `ts`. */
  ghost predicate HasRows(ts: seq<TaggedAnswer>, table: Table)
  {
    table.Keys == SurveyIds(ts)
  }

  /** Each row holds exactly the columns its survey's records use. */
  ghost predicate HasColumns(ts: seq<TaggedAnswer>, table: Table)
  {
    forall s :: s in table ==> table[s].Keys == ColumnsOf(ts, s)
  }

  /** Each record's cell holds its response. */
  ghost predicate HasCells(ts: seq<TaggedAnswer>, table: Table)
  {
    forall i :: 0 <= i < |ts| ==>
      && ts[i].surveyId in table && Column(ts[i]) in table[ts[i].surveyId]
      && table[ts[i].surveyId][Column(ts[i])] == ts[i].response
  }

  /** Writes one record's response into its cell, opening its row if needed. */
  function Insert(table: Table, t: TaggedAnswer): Table
  {
    var row := if t.surveyId in table then table[t.surveyId] else map[];
    table[t.surveyId := row[Column(t) := t.response]]
  }

  /** Inserting a record leaves every other cell as it was. */
  lemma InsertKeepsCell(table: Table, t: TaggedAnswer, u: TaggedAnswer)
    requires u.surveyId in table && Column(u) in table[u.surveyId]
    requires u.surveyId != t.surveyId || Column(u) != Column(t)
    ensures u.surveyId in Insert(table, t) && Column(u) in Insert(table, t)[u.surveyId]
    ensures Insert(table, t)[u.surveyId][Column(u)] == table[u.surveyId][Column(u)]
  {
  }

  lemma InsertLastRows(init: seq<TaggedAnswer>, t: TaggedAnswer, prev: Table)
    requires HasRows(init, prev)
    ensures HasRows(init + [t], Insert(prev, t))
  {
    SnocSets(init, t);
  }

  lemma InsertLastColumns(init: seq<TaggedAnswer>, t: TaggedAnswer, prev: Table)
    requires HasRows(init, prev) && HasColumns(init, prev)
    ensures HasColumns(init + [t], Insert(prev, t))
  {
    SnocSets(init, t);
    var table := Insert(prev, t);
    forall s | s in table
      ensures table[s].Keys == ColumnsOf(init + [t], s)
    {
      if s == t.surveyId && s !in prev {
        assert forall u :: u in init ==> u.surveyId in SurveyIds(init);
        assert ColumnsOf(init, s) == {};
      }
    }
  }

  /** The last record's cell is still free, so no earlier cell is lost. */
  lemma InsertLastCells(ts: seq<TaggedAnswer>, prev: Table)
    requires |ts| > 0 && UniqueCells(ts)
    requires HasCells(ts[..|ts| - 1], prev)
    ensures HasCells(ts, Insert(prev, ts[|ts| - 1]))
  {
    var init := ts[..|ts| - 1];
    var t := ts[|ts| - 1];
    var table := Insert(prev, t);
    forall i | 0 <= i < |ts| - 1
      ensures && ts[i].surveyId in table && Column(ts[i]) in table[ts[i].surveyId]
              && table[ts[i].surveyId][Column(ts[i])] == ts[i].response
    {
      assert init[i] == ts[i];
      InsertKeepsCell(prev, t, ts[i]);
    }
  }


  lemma UniqueCellsPrefix(ts: seq<TaggedAnswer>)
    requires |ts| > 0 && UniqueCells(ts)
    ensures UniqueCells(ts[..|ts| - 1])
  {
    var init := ts[..|ts| - 1];
    assert forall i :: 0 <= i < |init| ==> init[i] == ts[i];
  }

  /** Inserting the last record into the pivot of the others gives the
      pivot of the whole stream. */
  lemma InsertLast(ts: seq<TaggedAnswer>, prev: Table)
    requires |ts| > 0 && UniqueCells(ts)
    requires HasRows(ts[..|ts| - 1], prev)
    requires HasColumns(ts[..|ts| - 1], prev)
    requires HasCells(ts[..|ts| - 1], prev)
    ensures HasRows(ts, Insert(prev, ts[|ts| - 1]))
    ensures HasColumns(ts, Insert(prev, ts[|ts| - 1]))
    ensures HasCells(ts, Insert(prev, ts[|ts| - 1]))
  {
    var init, t := ts[..|ts| - 1], ts[|ts| - 1];
    assert ts == init + [t];
    InsertLastRows(init, t, prev);
    InsertLastColumns(init, t, prev);
    InsertLastCells(ts, prev);
  }

  /** `set_index([...]).unstack(level='survey_id').T`: one row per survey,
      one cell per record, and nothing else. */
  function Pivot(ts: seq<TaggedAnswer>): (table: Table)
    requires UniqueCells(ts)
    ensures table.Keys == SurveyIds(ts)
    ensures forall s :: s in table ==> table[s].Keys == ColumnsOf(ts, s)
    ensures forall i :: 0 <= i < |ts| ==>
              && ts[i].surveyId in table && Column(ts[i]) in table[ts[i].surveyId]
              && table[ts[i].surveyId][Column(ts[i])] == ts[i].response
  {
    if ts == [] then map[]
    else
      UniqueCellsPrefix(ts);
      var prev := Pivot(ts[..|ts| - 1]);
      InsertLast(ts, prev);
      Insert(prev, ts[|ts| - 1])
  }

  /** The column index of the pivot is the set of columns the records use. */
  lemma {:induction false} PivotColumns(ts: seq<TaggedAnswer>)
    requires UniqueCells(ts)
    ensures Columns(Pivot(ts)) == set t | t in ts :: Column(t)
  {
    var table := Pivot(ts);
    forall c | c in Columns(table)
      ensures c in set t | t in ts :: Column(t)
    {
      var s :| s in table && c in table[s];
      assert c in ColumnsOf(ts, s);
    }
    forall c | c in set t | t in ts :: Column(t)
      ensures c in Columns(table)
    {
      var t :| t in ts && Column(t) == c;
      assert c in ColumnsOf(ts, t.surveyId);
    }
  }

  // ---------------------------------------------------------------------
  // gather_agsurveys
  // ---------------------------------------------------------------------

  /** The column an answer lands in once tagged against `multi`. */
  function AnswerColumn(a: Answer, multi: set<QuestionId>): ColKey
  {
    Column(TagAnswer(a, multi))
  }

  /** An answer to a MULTIPLE question lands in the column of its own
      response; any other answer lands in the bare question's column. */
  lemma AnswerColumnCases(a: Answer, multi: set<QuestionId>)
    ensures a.questionId in multi ==> AnswerColumn(a, multi) == Multi(a.questionId, a.response)
    ensures a.questionId !in multi ==> AnswerColumn(a, multi) == Single(a.questionId)
  {
  }

  /** Two answers of the merged stream that the pivot would put in one cell. */
  predicate HasDuplicateCells(all: seq<Answer>, multi: set<QuestionId>)
  {
    exists i, j | 0 <= i < j < |all| ::
      all[i].surveyId == all[j].surveyId && AnswerColumn(all[i], multi) == AnswerColumn(all[j], multi)
  }

  /** Tagging the merged stream keeps a duplicate cell exactly when the
      answers had one. */
  lemma UniqueCellsOfTagged(all: seq<Answer>, multi: set<QuestionId>)
    ensures UniqueCells(TagAll(all, multi)) <==> !HasDuplicateCells(all, multi)
  {
    var tagged := TagAll(all, multi);
    if HasDuplicateCells(all, multi) {
      var i, j :| 0 <= i < j < |all| && all[i].surveyId == all[j].surveyId
                  && AnswerColumn(all[i], multi) == AnswerColumn(all[j], multi);
      assert tagged[i].surveyId == tagged[j].surveyId && Column(tagged[i]) == Column(tagged[j]);
    }
  }

  /** Tagging keeps the survey ids of the stream. */
  lemma TaggedSurveyIds(all: seq<Answer>, multi: set<QuestionId>)
    ensures SurveyIds(TagAll(all, multi)) == set a | a in all :: a.surveyId
  {
    var tagged := TagAll(all, multi);
    forall s | s in SurveyIds(tagged)
      ensures s in set a | a in all :: a.surveyId
    {
      var t :| t in tagged && t.surveyId == s;
      var i :| 0 <= i < |tagged| && tagged[i] == t;
      assert all[i] in all;
    }
    forall s | s in set a | a in all :: a.surveyId
      ensures s in SurveyIds(tagged)
    {
      var a :| a in all && a.surveyId == s;
      var i :| 0 <= i < |all| && all[i] == a;
      assert tagged[i] in tagged;
    }
  }

  /** Tagging sends each survey's answers to the columns `AnswerColumn`
      names. */
  lemma TaggedColumnsOf(all: seq<Answer>, multi: set<QuestionId>, s: SurveyId)
    ensures ColumnsOf(TagAll(all, multi), s) == set a | a in all && a.surveyId == s :: AnswerColumn(a, multi)
  {
    var tagged := TagAll(all, multi);
    forall c | c in ColumnsOf(tagged, s)
      ensures c in set a | a in all && a.surveyId == s :: AnswerColumn(a, multi)
    {
      var t :| t in tagged && t.surveyId == s && Column(t) == c;
      var i :| 0 <= i < |tagged| && tagged[i] == t;
      assert all[i] in all;
    }
    forall c | c in set a | a in all && a.surveyId == s :: AnswerColumn(a, multi)
      ensures c in ColumnsOf(tagged, s)
    {
      var a :| a in all && a.surveyId == s && AnswerColumn(a, multi) == c;
      var i :| 0 <= i < |all| && all[i] == a;
      assert tagged[i] in tagged;
    }
  }

  /** Each answer's cell in the pivot of the tagged stream holds its response. */
  lemma TaggedCells(all: seq<Answer>, multi: set<QuestionId>)
    requires UniqueCells(TagAll(all, multi))
    ensures forall a :: a in all ==>
              && a.surveyId in Pivot(TagAll(all, multi))
              && AnswerColumn(a, multi) in Pivot(TagAll(all, multi))[a.surveyId]
              && Pivot(TagAll(all, multi))[a.surveyId][AnswerColumn(a, multi)] == a.response
  {
    var tagged := TagAll(all, multi);
    var table := Pivot(tagged);
    forall a | a in all
      ensures && a.surveyId in table && AnswerColumn(a, multi) in table[a.surveyId]
              && table[a.surveyId][AnswerColumn(a, multi)] == a.response
    {
      var i :| 0 <= i < |all| && all[i] == a;
      assert tagged[i] == TagAnswer(a, multi);
    }
  }

  /** The whole pulldown: merge, find the MULTIPLE questions, tag, pivot.
      It fails exactly when two answers would share a cell; otherwise the
      rows are the surveys that answered, each row holds exactly the columns
      its answers land in, and each answer's cell holds its response. */
  function GatherAgSurveys(answers: seq<Answer>, answersOther: seq<Answer>,
                           multiplePossResponses: seq<PossibleResponse>): (r: Result<Table, PivotError>)
    ensures r.Err? <==> HasDuplicateCells(answers + answersOther, MultipleQuestionIds(multiplePossResponses))
    ensures r.Ok? ==> r.value.Keys == set a | a in answers + answersOther :: a.surveyId
    ensures r.Ok? ==> forall s :: s in r.value ==>
              r.value[s].Keys == set a | a in answers + answersOther && a.surveyId == s
                                     :: AnswerColumn(a, MultipleQuestionIds(multiplePossResponses))
    ensures r.Ok? ==> forall a :: a in answers + answersOther ==>
              && a.surveyId in r.value
              && AnswerColumn(a, MultipleQuestionIds(multiplePossResponses)) in r.value[a.surveyId]
              && r.value[a.surveyId][AnswerColumn(a, MultipleQuestionIds(multiplePossResponses))] == a.response
  {
    var all := ConcatAnswers(answers, answersOther);
    var multi := MultipleQuestionIds(multiplePossResponses);
    var tagged := TagAll(all, multi);
    UniqueCellsOfTagged(all, multi);
    if !UniqueCells(tagged) then
      Err(DuplicateEntries)
    else
      TaggedSurveyIds(all, multi);
      TaggedCells(all, multi);
      assert forall s :: ColumnsOf(tagged, s) == set a | a in all && a.surveyId == s :: AnswerColumn(a, multi) by {
        forall s { TaggedColumnsOf(all, multi, s); }
      }
      Ok(Pivot(tagged))
  }

  /** A MULTIPLE question's cell holds the value its column names; a
      single-answer column belongs to a question that is not MULTIPLE. */
  lemma GatherMultiCells(answers: seq<Answer>, answersOther: seq<Answer>,
                         multiplePossResponses: seq<PossibleResponse>)
    ensures var r := GatherAgSurveys(answers, answersOther, multiplePossResponses);
            var multi := MultipleQuestionIds(multiplePossResponses);
            r.Ok? ==>
              && (forall s, q, v :: s in r.value && Multi(q, v) in r.value[s] ==>
                    q in multi && r.value[s][Multi(q, v)] == v)
              && (forall s, q :: s in r.value && Single(q) in r.value[s] ==> q !in multi)
  {
    if GatherAgSurveys(answers, answersOther, multiplePossResponses).Err? {
      return;
    }
    var table := GatherAgSurveys(answers, answersOther, multiplePossResponses).value;
    var multi := MultipleQuestionIds(multiplePossResponses);
    var all := answers + answersOther;
    forall s, q, v | s in table && Multi(q, v) in table[s]
      ensures q in multi && table[s][Multi(q, v)] == v
    {
      assert Multi(q, v) in set a | a in all && a.surveyId == s :: AnswerColumn(a, multi);
      var a :| a in all && a.surveyId == s && AnswerColumn(a, multi) == Multi(q, v);
      AnswerColumnCases(a, multi);
      assert table[s][AnswerColumn(a, multi)] == a.response;
    }
    forall s, q | s in table && Single(q) in table[s]
      ensures q !in multi
    {
      assert Single(q) in set a | a in all && a.surveyId == s :: AnswerColumn(a, multi);
      var a :| a in all && a.surveyId == s && AnswerColumn(a, multi) == Single(q);
      AnswerColumnCases(a, multi);
    }
  }

  /** A respondent who picked Red and Green of a MULTIPLE question with
      domain {Red, Blue, Green}, and answered a free-text question, gets a
      cell for each chosen value holding that value, none for Blue, and the
      free text under the bare question. */
  lemma MultiSelectExample()
    ensures var r := GatherAgSurveys(
                       [Answer(2, "S2", "Red"), Answer(2, "S2", "Green")],
                       [Answer(1, "S2", "notes")],
                       [PossibleResponse(2, "Red"), PossibleResponse(2, "Blue"), PossibleResponse(2, "Green")]);
            && r.Ok? && r.value.Keys == {"S2"}
            && r.value["S2"].Keys == {Multi(2, "Red"), Multi(2, "Green"), Single(1)}
            && r.value["S2"][Multi(2, "Red")] == "Red"
            && r.value["S2"][Multi(2, "Green")] == "Green"
            && r.value["S2"][Single(1)] == "notes"
  {
    var answers := [Answer(2, "S2", "Red"), Answer(2, "S2", "Green")];
    var other := [Answer(1, "S2", "notes")];
    var poss := [PossibleResponse(2, "Red"), PossibleResponse(2, "Blue"), PossibleResponse(2, "Green")];
    var multi := MultipleQuestionIds(poss);
    assert 2 in multi by { assert poss[0].questionId == 2; }
    assert 1 !in multi;
    var all := answers + other;
    assert all == [Answer(2, "S2", "Red"), Answer(2, "S2", "Green"), Answer(1, "S2", "notes")];
    AnswerColumnCases(all[0], multi);
    AnswerColumnCases(all[1], multi);
    AnswerColumnCases(all[2], multi);
    assert !HasDuplicateCells(all, multi);
    ExampleSets(all, multi);
  }

  lemma ExampleSets(all: seq<Answer>, multi: set<QuestionId>)
    requires all == [Answer(2, "S2", "Red"), Answer(2, "S2", "Green"), Answer(1, "S2", "notes")]
    requires 2 in multi && 1 !in multi
    ensures (set a | a in all :: a.surveyId) == {"S2"}
    ensures (set a | a in all && a.surveyId == "S2" :: AnswerColumn(a, multi))
            == {Multi(2, "Red"), Multi(2, "Green"), Single(1)}
  {
    assert forall a :: a in all <==> a == all[0] || a == all[1] || a == all[2];
    AnswerColumnCases(all[0], multi);
    AnswerColumnCases(all[1], multi);
    AnswerColumnCases(all[2], multi);
  }

  /** Two answers of one respondent to the same single-answer question make
      the pivot fail instead of keeping either value. */
  lemma DuplicateSingleAnswerExample()
    ensures GatherAgSurveys([Answer(1, "S1", "Yes")], [Answer(1, "S1", "No")], []) == Err(DuplicateEntries)
  {
    var all := [Answer(1, "S1", "Yes")] + [Answer(1, "S1", "No")];
    assert all[0].surveyId == all[1].surveyId && AnswerColumn(all[0], {}) == AnswerColumn(all[1], {});
    assert MultipleQuestionIds([]) == {};
  }
}
