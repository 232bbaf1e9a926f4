/** The quiz side of the relational store: the quiz table, one item table per
    quiz type and the answer table, with the handlers that add, update, delete,
    list and answer quizzes. Each handler's writes happen together or not at
    all, as inside a database transaction. */
module QuizStore {
  import opened Wrappers
  import opened Text
  import opened Records
  import opened Validation

  /** One item table: its rows by `question_id`, and the id the next row gets
      (ids auto-increment and are never reused). */
  datatype Table = Table(rows: map<int, Item>, nextId: int)

  predicate Fresh(t: Table) {
    1 <= t.nextId && forall k :: k in t.rows ==> 1 <= k < t.nextId
  }

  /** The ids rows get when `n` items are inserted at `base`, in insertion order. */
  function FreshIds(base: int, n: nat): (r: seq<int>)
    ensures |r| == n
    ensures forall i :: 0 <= i < n ==> r[i] == base + i
  {
    seq(n, i requires 0 <= i < n => base + i)
  }

  /** bulkCreate: every item stored under the next free id, in order. */
  function Insert(t: Table, items: seq<Item>): (r: Table)
    requires Fresh(t)
    ensures r.nextId == t.nextId + |items|
    ensures forall k :: k in r.rows <==> k in t.rows || t.nextId <= k < t.nextId + |items|
    ensures forall k :: k in t.rows ==> r.rows[k] == t.rows[k]
    ensures forall i :: 0 <= i < |items| ==> r.rows[t.nextId + i] == items[i]
  {
    Table(t.rows + Added(t.nextId, items), t.nextId + |items|)
  }

  /** The new rows: item i under id base + i. */
  function Added(base: int, items: seq<Item>): (r: map<int, Item>)
    ensures forall k :: k in r <==> base <= k < base + |items|
    ensures forall i :: 0 <= i < |items| ==> r[base + i] == items[i]
  {
    if |items| == 0 then map[]
    else Added(base, items[..|items| - 1])[base + |items| - 1 := items[|items| - 1]]
  }

  /** `questions_id`: the ids joined with '|'. */
  function JoinIds(ids: seq<int>): string {
    Join(IntsToStrings(ids), '|')
  }

  lemma RenderedIdsHaveNoSeparator(ids: seq<int>)
    ensures NoSeparator(IntsToStrings(ids), '|')
  {
    forall i | 0 <= i < |ids| ensures '|' !in IntsToStrings(ids)[i] {
      var s := IntToString(ids[i]);
      assert forall k :: 0 <= k < |s| ==> s[k] != '|';
    }
  }

  /** `questions_id.split("|")` gives back the rendered ids, unless there are none. */
  lemma SplitJoinIds(ids: seq<int>)
    requires |ids| >= 1
    ensures Split(JoinIds(ids), '|') == IntsToStrings(ids)
  {
    RenderedIdsHaveNoSeparator(ids);
    SplitJoin(IntsToStrings(ids), '|');
  }

  /** A row is listed in `questions_id` exactly when its id is one of the ids
      joined there. With no ids the column is "" and splits to [""], which no
      rendered id equals. */
  lemma ListedIff(ids: seq<int>, k: int)
    ensures IntToString(k) in Split(JoinIds(ids), '|') <==> k in ids
  {
    if |ids| == 0 {
      assert Split(JoinIds(ids), '|') == [""];
    } else {
      SplitJoinIds(ids);
      if IntToString(k) in IntsToStrings(ids) {
        var i :| 0 <= i < |ids| && IntsToStrings(ids)[i] == IntToString(k);
        IntToStringInjective(ids[i], k);
      }
    }
  }

  /** getQuiz reads `questions_id.split("|").map(Number)`: every listed id
      comes back as its number. The empty list comes back as [0]. */
  lemma IdsReadBack(ids: seq<int>)
    ensures |ids| >= 1 ==> StringsToNumbers(Split(JoinIds(ids), '|')) == seq(|ids|, i requires 0 <= i < |ids| => Finite(ids[i]))
    ensures |ids| == 0 ==> StringsToNumbers(Split(JoinIds(ids), '|')) == [Finite(0)]
  {
    if |ids| >= 1 {
      SplitJoinIds(ids);
      forall i | 0 <= i < |ids| ensures NumberOf(IntsToStrings(ids)[i]) == Finite(ids[i]) {
        NumberOfIntToString(ids[i]);
      }
    } else {
      assert Split(JoinIds(ids), '|') == [""];
    }
  }

  /** A row whose id `Number` reads off one of the pieces of `questions_id`. */
  lemma NumberedIff(ids: seq<int>, k: int)
    requires k >= 1
    ensures Finite(k) in StringsToNumbers(Split(JoinIds(ids), '|')) <==> k in ids
  {
    IdsReadBack(ids);
    if |ids| >= 1 {
      var nums := StringsToNumbers(Split(JoinIds(ids), '|'));
      if Finite(k) in nums {
        var i :| 0 <= i < |nums| && nums[i] == Finite(k);
        assert ids[i] == k;
      }
      if k in ids {
        var i :| 0 <= i < |ids| && ids[i] == k;
        assert nums[i] == Finite(k);
      }
    }
  }

  /** removeQuestions: destroy the rows whose id is one of `questions_id.split("|")`. */
  function RemoveListed(t: Table, questionsId: string): (r: Table)
    ensures r.nextId == t.nextId
    ensures forall k :: k in r.rows <==> k in t.rows && IntToString(k) !in Split(questionsId, '|')
    ensures forall k :: k in r.rows ==> r.rows[k] == t.rows[k]
  {
    Table(map k | k in t.rows && IntToString(k) !in Split(questionsId, '|') :: t.rows[k], t.nextId)
  }

  /** The image path a quiz is given: the uploaded file, or a generated
      picture named after the creation time. */
  function ImagePath(upload: Option<string>, generatedName: string): (r: string)
    ensures upload.Some? ==> r == "quiz-images/" + upload.value
    ensures upload.None? ==> r == "quiz-images/" + generatedName + ".png"
  {
    match upload
    case Some(file) => "quiz-images/" + file
    case None => "quiz-images/" + generatedName + ".png"
  }

  /** Whether an add or update request passes: every item has the declared
      type's shape and every validation succeeds. */
  predicate Accepted(t: QuizType, meta: QuizMeta, items: seq<Item>) {
    AllFit(items, t) && Failures(GetValidations(items, meta, t)) == []
  }

  /** The answer row a finished attempt becomes: the four lists joined with '|'. */
  function AnswerRowOf(id: int, userId: int, quizId: int, kind: string, attempt: Attempt): AnswerRow {
    AnswerRow(id, userId, quizId, kind,
      Join(IntsToStrings(attempt.points), '|'), Join(attempt.answers, '|'),
      Join(IntsToStrings(attempt.remainingTimes), '|'), Join(attempt.questions, '|'))
  }

  /** A stored answer as mapAnswer returns it. */
  datatype AnswerView = AnswerView(points: seq<Num>, answers: seq<string>, remainingTimes: seq<Num>, questions: seq<string>)

  /** mapAnswer: split the four columns on '|' and read the numeric ones with `Number`. */
  function MapAnswer(row: AnswerRow): (r: AnswerView)
    ensures |r.points| == Occurrences(row.points, '|') + 1
    ensures |r.answers| == Occurrences(row.answers, '|') + 1
    ensures |r.remainingTimes| == Occurrences(row.remainingTimes, '|') + 1
    ensures |r.questions| == Occurrences(row.questions, '|') + 1
  {
    AnswerView(StringsToNumbers(Split(row.points, '|')), Split(row.answers, '|'),
      StringsToNumbers(Split(row.remainingTimes, '|')), Split(row.questions, '|'))
  }

  function Numbers(xs: seq<int>): (r: seq<Num>)
    ensures |r| == |xs| && forall i :: 0 <= i < |xs| ==> r[i] == Finite(xs[i])
  {
    seq(|xs|, i requires 0 <= i < |xs| => Finite(xs[i]))
  }

  lemma NumbersReadBack(xs: seq<int>)
    requires |xs| >= 1
    ensures StringsToNumbers(Split(Join(IntsToStrings(xs), '|'), '|')) == Numbers(xs)
  {
    IdsReadBack(xs);
  }

  /** Reading a stored attempt back gives the attempt, provided each list is
      non-empty and no answer or question text contains '|'. */
  lemma MapAnswerReadsBackAttempt(id: int, userId: int, quizId: int, kind: string, attempt: Attempt)
    requires |attempt.points| >= 1 && |attempt.remainingTimes| >= 1
    requires |attempt.answers| >= 1 && NoSeparator(attempt.answers, '|')
    requires |attempt.questions| >= 1 && NoSeparator(attempt.questions, '|')
    ensures MapAnswer(AnswerRowOf(id, userId, quizId, kind, attempt)) ==
      AnswerView(Numbers(attempt.points), attempt.answers, Numbers(attempt.remainingTimes), attempt.questions)
  {
    NumbersReadBack(attempt.points);
    NumbersReadBack(attempt.remainingTimes);
    SplitJoin(attempt.answers, '|');
    SplitJoin(attempt.questions, '|');
  }

  /** An attempt whose answer holds '|' reads back with one answer too many. */
  lemma SeparatorInAnswerIsNotPreserved(id: int, userId: int, quizId: int, kind: string)
    ensures var attempt := Attempt([100], ["a|b"], [5], ["Which letter?"]);
      |MapAnswer(AnswerRowOf(id, userId, quizId, kind, attempt)).answers| == 2
  {
    SeparatorInsideElementSplitsIt();
  }

  /** What the quiz listings return for one quiz. `items` counts the pieces
      of `questions_id`. */
  datatype Summary = Summary(
    name: string, description: string, topic: string, kind: QuizType,
    items: nat, imagePath: string, isAnswered: bool)

  /** A quiz with its items, as getQuiz returns it. The items come from an
      unordered query, so they are keyed by id. */
  datatype QuizView = QuizView(
    quizId: int, userId: int, name: string, description: string, topic: string,
    kind: QuizType, questions: map<int, ServedItem>, imagePath: string)

  /** Every type has its table, and ids in each table are below its counter. */
  ghost predicate TablesOk(tables: map<QuizType, Table>) {
    forall t: QuizType :: t in tables && Fresh(tables[t])
  }

  /** Quiz ids are positive and below the next id to be given. */
  ghost predicate Numbered(quizzes: map<int, QuizRecord>, nextQuizId: int) {
    1 <= nextQuizId && forall q :: q in quizzes ==> 1 <= q < nextQuizId
  }

  /** Each quiz's `questions_id` joins its item ids. */
  ghost predicate Joined(quizzes: map<int, QuizRecord>, itemIds: map<int, seq<int>>) {
    itemIds.Keys == quizzes.Keys && forall q :: q in quizzes ==> quizzes[q].questionsId == JoinIds(itemIds[q])
  }

  /** Each item id of a quiz is a row of its type's table. */
  ghost predicate Stored(quizzes: map<int, QuizRecord>, tables: map<QuizType, Table>, itemIds: map<int, seq<int>>) {
    forall q, k :: q in quizzes && q in itemIds && k in itemIds[q] ==>
      quizzes[q].kind in tables && k in tables[quizzes[q].kind].rows
  }

  /** No two quizzes of one type share a row. */
  ghost predicate Disjoint(quizzes: map<int, QuizRecord>, itemIds: map<int, seq<int>>) {
    forall q1, q2, k :: (q1 in quizzes && q2 in quizzes && q1 in itemIds && q2 in itemIds && q1 != q2
                         && quizzes[q1].kind == quizzes[q2].kind && k in itemIds[q1]) ==> k !in itemIds[q2]
  }

  /** The store's invariant: each quiz's `questions_id` joins its item ids,
      those ids are rows of the quiz's type table, and no two quizzes of one
      type share a row. */
  ghost predicate Consistent(quizzes: map<int, QuizRecord>, nextQuizId: int,
                             tables: map<QuizType, Table>, itemIds: map<int, seq<int>>)
  {
    && TablesOk(tables) && Numbered(quizzes, nextQuizId) && Joined(quizzes, itemIds)
    && Stored(quizzes, tables, itemIds) && Disjoint(quizzes, itemIds)
  }

  /** The rows a new quiz gets are stored, and the old rows stay. */
  lemma AddKeepsStored(quizzes: map<int, QuizRecord>, tables: map<QuizType, Table>, itemIds: map<int, seq<int>>,
                       id: int, items: seq<Item>, record: QuizRecord)
    requires TablesOk(tables) && Stored(quizzes, tables, itemIds)
    ensures var t := record.kind;
      Stored(quizzes[id := record], tables[t := Insert(tables[t], items)],
             itemIds[id := FreshIds(tables[t].nextId, |items|)])
  {
    var t := record.kind;
    var ids := FreshIds(tables[t].nextId, |items|);
    var inserted := Insert(tables[t], items);
    var tables' := tables[t := inserted];
    var quizzes' := quizzes[id := record];
    var itemIds' := itemIds[id := ids];
    forall q, k | q in quizzes' && q in itemIds' && k in itemIds'[q]
      ensures quizzes'[q].kind in tables' && k in tables'[quizzes'[q].kind].rows
    {
      if q == id {
        var i :| 0 <= i < |ids| && ids[i] == k;
        assert tables[t].nextId <= k < tables[t].nextId + |items|;
      } else {
        assert k in tables[quizzes[q].kind].rows;
      }
    }
  }

  /** The rows a new quiz gets are above every existing row, so no other
      quiz lists them. */
  lemma AddKeepsDisjoint(quizzes: map<int, QuizRecord>, tables: map<QuizType, Table>, itemIds: map<int, seq<int>>,
                         id: int, items: seq<Item>, record: QuizRecord)
    requires TablesOk(tables) && Stored(quizzes, tables, itemIds) && Disjoint(quizzes, itemIds)
    requires id !in quizzes
    ensures Disjoint(quizzes[id := record], itemIds[id := FreshIds(tables[record.kind].nextId, |items|)])
  {
    var t := record.kind;
    var ids := FreshIds(tables[t].nextId, |items|);
    var quizzes' := quizzes[id := record];
    var itemIds' := itemIds[id := ids];
    forall q1, q2, k | (q1 in quizzes' && q2 in quizzes' && q1 in itemIds' && q2 in itemIds' && q1 != q2
                        && quizzes'[q1].kind == quizzes'[q2].kind && k in itemIds'[q1])
      ensures k !in itemIds'[q2]
    {
      if q1 == id {
        var i :| 0 <= i < |ids| && ids[i] == k;
        assert k !in tables[t].rows;
      } else if q2 == id {
        assert k in tables[t].rows;
      }
    }
  }

  /** Creating quiz `id` with fresh rows keeps the invariant. */
  lemma AddKeepsConsistent(quizzes: map<int, QuizRecord>, nextQuizId: int,
                           tables: map<QuizType, Table>, itemIds: map<int, seq<int>>,
                           id: int, next: int, items: seq<Item>, record: QuizRecord)
    requires Consistent(quizzes, nextQuizId, tables, itemIds)
    requires id !in quizzes && 1 <= id < next && nextQuizId <= next
    requires record.questionsId == JoinIds(FreshIds(tables[record.kind].nextId, |items|))
    ensures var t := record.kind;
      Consistent(quizzes[id := record], next,
                 tables[t := Insert(tables[t], items)],
                 itemIds[id := FreshIds(tables[t].nextId, |items|)])
  {
    AddKeepsStored(quizzes, tables, itemIds, id, items, record);
    AddKeepsDisjoint(quizzes, tables, itemIds, id, items, record);
  }

  /** The table removeQuestions leaves holds exactly the rows the quiz did not list. */
  lemma RemoveListedIds(t: Table, ids: seq<int>)
    ensures forall k :: k in RemoveListed(t, JoinIds(ids)).rows <==> k in t.rows && k !in ids
  {
    forall k ensures k in RemoveListed(t, JoinIds(ids)).rows <==> k in t.rows && k !in ids {
      ListedIff(ids, k);
    }
  }

  /** Clearing quiz `id`'s rows from its table leaves every other quiz's rows in place. */
  lemma RemoveKeepsStored(quizzes: map<int, QuizRecord>, tables: map<QuizType, Table>, itemIds: map<int, seq<int>>,
                          id: int, cleared: Table)
    requires TablesOk(tables) && Stored(quizzes, tables, itemIds) && Disjoint(quizzes, itemIds)
    requires id in quizzes && id in itemIds
    requires forall k :: k in cleared.rows <==> k in tables[quizzes[id].kind].rows && k !in itemIds[id]
    ensures Stored(quizzes - {id}, tables[quizzes[id].kind := cleared], itemIds - {id})
  {
    var kind := quizzes[id].kind;
    var quizzes' := quizzes - {id};
    var tables' := tables[kind := cleared];
    var itemIds' := itemIds - {id};
    forall q, k | q in quizzes' && q in itemIds' && k in itemIds'[q]
      ensures quizzes'[q].kind in tables' && k in tables'[quizzes'[q].kind].rows
    {
      assert k in tables[quizzes[q].kind].rows;
      if quizzes[q].kind == kind {
        assert k !in itemIds[id];
      }
    }
  }

  /** Removing quiz `id` together with the rows its `questions_id` lists keeps
      the invariant, and removes exactly that quiz's rows. */
  lemma RemoveKeepsConsistent(quizzes: map<int, QuizRecord>, nextQuizId: int,
                              tables: map<QuizType, Table>, itemIds: map<int, seq<int>>, id: int)
    requires Consistent(quizzes, nextQuizId, tables, itemIds)
    requires id in quizzes
    ensures var kind := quizzes[id].kind;
      Consistent(quizzes - {id}, nextQuizId,
                 tables[kind := RemoveListed(tables[kind], quizzes[id].questionsId)], itemIds - {id})
    ensures var kind := quizzes[id].kind;
      forall k :: k in RemoveListed(tables[kind], quizzes[id].questionsId).rows <==>
        k in tables[kind].rows && k !in itemIds[id]
  {
    var kind := quizzes[id].kind;
    RemoveListedIds(tables[kind], itemIds[id]);
    var cleared := RemoveListed(tables[kind], quizzes[id].questionsId);
    assert forall k :: k in cleared.rows <==> k in tables[kind].rows && k !in itemIds[id];
    RemoveKeepsStored(quizzes, tables, itemIds, id, cleared);
    assert Disjoint(quizzes - {id}, itemIds - {id});
  }

  /** Rewriting quiz `id` with new rows of type `record.kind`, after removing
      its old rows, keeps the invariant, and none of the old rows is left. */
  lemma ReplaceKeepsConsistent(quizzes: map<int, QuizRecord>, nextQuizId: int,
                               tables: map<QuizType, Table>, itemIds: map<int, seq<int>>,
                               id: int, items: seq<Item>, record: QuizRecord)
    requires Consistent(quizzes, nextQuizId, tables, itemIds)
    requires id in quizzes
    requires record.questionsId == JoinIds(FreshIds(tables[record.kind].nextId, |items|))
    ensures var prev := quizzes[id];
      var cleared := tables[prev.kind := RemoveListed(tables[prev.kind], prev.questionsId)];
      var final := cleared[record.kind := Insert(cleared[record.kind], items)];
      && Consistent(quizzes[id := record], nextQuizId, final,
                    itemIds[id := FreshIds(tables[record.kind].nextId, |items|)])
      && forall k :: k in itemIds[id] ==> k !in final[prev.kind].rows
  {
    var prev := quizzes[id];
    var cleared := tables[prev.kind := RemoveListed(tables[prev.kind], prev.questionsId)];
    var ids := FreshIds(tables[record.kind].nextId, |items|);
    var quizzes', itemIds' := quizzes - {id}, itemIds - {id};
    RemoveKeepsConsistent(quizzes, nextQuizId, tables, itemIds, id);
    assert cleared[record.kind].nextId == tables[record.kind].nextId;
    AddKeepsConsistent(quizzes', nextQuizId, cleared, itemIds', id, nextQuizId, items, record);
    RemoveThenSet(quizzes, id, record);
    RemoveThenSet(itemIds, id, ids);
    ClearedStaysClear(tables, prev.kind, itemIds[id], prev.questionsId, record.kind, items);
  }

  /** Dropping a key and setting it again is setting it. */
  lemma RemoveThenSet<K, V>(m: map<K, V>, key: K, v: V)
    ensures (m - {key})[key := v] == m[key := v]
  {
  }

  /** Inserting new rows after clearing a quiz's rows brings none of them back. */
  lemma ClearedStaysClear(tables: map<QuizType, Table>, kind: QuizType, ids: seq<int>, questionsId: string,
                          t: QuizType, items: seq<Item>)
    requires TablesOk(tables)
    requires forall k :: k in ids ==> k in tables[kind].rows
    requires questionsId == JoinIds(ids)
    ensures var cleared := tables[kind := RemoveListed(tables[kind], questionsId)];
      forall k :: k in ids ==> k !in cleared[t := Insert(cleared[t], items)][kind].rows
  {
    RemoveListedIds(tables[kind], ids);
  }


  /** No signed-in user has two answer rows for one quiz. Anonymous rows
      (user 0) may repeat. */
  ghost predicate OneAnswerPerUser(answers: seq<AnswerRow>) {
    forall i, j :: 0 <= i < j < |answers| && answers[i].userId != 0 ==>
      answers[i].quizId != answers[j].quizId || answers[i].userId != answers[j].userId
  }

  class Store {
    var quizzes: map<int, QuizRecord>
    var nextQuizId: int
    var tables: map<QuizType, Table>
    var answers: seq<AnswerRow>
    var nextAnswerId: int
    /** The ids each quiz's `questions_id` lists, in order. */
    ghost var itemIds: map<int, seq<int>>

    ghost predicate Valid()
      reads this
    {
      Consistent(quizzes, nextQuizId, tables, itemIds) && OneAnswerPerUser(answers)
    }

    constructor ()
      ensures Valid()
      ensures quizzes == map[] && answers == []
    {
      quizzes := map[];
      nextQuizId := 1;
      tables := map[MultipleChoice := Table(map[], 1), Identification := Table(map[], 1), TrueOrFalse := Table(map[], 1)];
      answers := [];
      nextAnswerId := 1;
      itemIds := map[];
      new;
      forall t: QuizType ensures t in tables && Fresh(tables[t]) {
        match t {
          case MultipleChoice =>
          case Identification =>
          case TrueOrFalse =>
        }
      }
    }

    /** add-quiz. Checks, in order: a known type, the items' shape (a mismatch
        throws, hence 500), every validation; only then are the items inserted
        and the quiz created, owned by the requester. */
    method AddQuiz(userId: int, typeName: string, meta: QuizMeta, items: seq<Item>,
                   upload: Option<string>, generatedName: string) returns (reply: Reply)
      requires Valid()
      modifies this
      ensures Valid()
      ensures ParseType(typeName).None? ==>
        reply == Reply(400, Messages(["Invalid quiz type"])) && unchanged(this)
      ensures ParseType(typeName).Some? && !AllFit(items, ParseType(typeName).value) ==>
        reply == Reply(500, ServerError) && unchanged(this)
      ensures ParseType(typeName).Some? && AllFit(items, ParseType(typeName).value)
              && !Accepted(ParseType(typeName).value, meta, items) ==>
        reply == Reply(400, Messages(Failures(GetValidations(items, meta, ParseType(typeName).value))))
        && unchanged(this)
      ensures ParseType(typeName).Some? && Accepted(ParseType(typeName).value, meta, items) ==>
        var t := ParseType(typeName).value;
        var id := old(nextQuizId);
        var ids := FreshIds(old(tables[t].nextId), |items|);
        && reply == Reply(201, Message("Quiz successfully added"))
        && id !in old(quizzes)
        && quizzes == old(quizzes)[id := QuizRecord(userId, meta.name, meta.description, meta.topic, t,
                                                    JoinIds(ids), meta.visibility, ImagePath(upload, generatedName))]
        && itemIds[id] == ids
        && tables == old(tables)[t := Insert(old(tables[t]), items)]
        && answers == old(answers)
        && nextQuizId == old(nextQuizId) + 1 && nextAnswerId == old(nextAnswerId)
    {
      var parsed := ParseType(typeName);
      if parsed.None? {
        return Reply(400, Messages(["Invalid quiz type"]));
      }
      var t := parsed.value;
      if !AllFit(items, t) {
        return Reply(500, ServerError);
      }
      var failures := Failures(GetValidations(items, meta, t));
      if failures != [] {
        return Reply(400, Messages(failures));
      }
      Create(userId, meta, t, items, ImagePath(upload, generatedName));
      reply := Reply(201, Message("Quiz successfully added"));
    }

    /** The commit of add-quiz: the item rows go into the type's table under
        fresh ids and the quiz row, listing those ids, gets the next quiz id. */
    method Create(userId: int, meta: QuizMeta, t: QuizType, items: seq<Item>, image: string)
      requires Valid()
      modifies this
      ensures Valid()
      ensures var id := old(nextQuizId);
        var ids := FreshIds(old(tables[t].nextId), |items|);
        && id !in old(quizzes)
        && quizzes == old(quizzes)[id := QuizRecord(userId, meta.name, meta.description, meta.topic, t,
                                                    JoinIds(ids), meta.visibility, image)]
        && itemIds[id] == ids
        && tables == old(tables)[t := Insert(old(tables[t]), items)]
        && answers == old(answers)
        && nextQuizId == old(nextQuizId) + 1 && nextAnswerId == old(nextAnswerId)
    {
      var table := tables[t];
      var ids := FreshIds(table.nextId, |items|);
      var record := QuizRecord(userId, meta.name, meta.description, meta.topic, t,
                               JoinIds(ids), meta.visibility, image);
      AddKeepsConsistent(quizzes, nextQuizId, tables, itemIds, nextQuizId, nextQuizId + 1, items, record);
      tables := tables[t := Insert(table, items)];
      quizzes := quizzes[nextQuizId := record];
      itemIds := itemIds[nextQuizId := ids];
      nextQuizId := nextQuizId + 1;
    }

    /** update-quiz. Checks, in order: a known type, the items' shape, every
        validation, the quiz's existence (a missing quiz throws, hence 500) and
        its ownership. Then the previous items are removed from the previous
        type's table, the new ones inserted into the new type's table, and the
        quiz row rewritten; its id and owner stay. */
    method UpdateQuiz(userId: int, quizId: int, typeName: string, meta: QuizMeta, items: seq<Item>,
                      upload: Option<string>, generatedName: string) returns (reply: Reply)
      requires Valid()
      modifies this
      ensures Valid()
      ensures ParseType(typeName).None? ==>
        reply == Reply(400, Messages(["Invalid quiz type"])) && unchanged(this)
      ensures ParseType(typeName).Some? && !AllFit(items, ParseType(typeName).value) ==>
        reply == Reply(500, ServerError) && unchanged(this)
      ensures ParseType(typeName).Some? && AllFit(items, ParseType(typeName).value)
              && !Accepted(ParseType(typeName).value, meta, items) ==>
        reply == Reply(400, Messages(Failures(GetValidations(items, meta, ParseType(typeName).value))))
        && unchanged(this)
      ensures ParseType(typeName).Some? && Accepted(ParseType(typeName).value, meta, items)
              && quizId !in old(quizzes) ==>
        reply == Reply(500, ServerError) && unchanged(this)
      ensures ParseType(typeName).Some? && Accepted(ParseType(typeName).value, meta, items)
              && quizId in old(quizzes) && old(quizzes[quizId].userId) != userId ==>
        reply == Reply(400, Messages(["You cannot edit quiz you did not create"])) && unchanged(this)
      ensures ParseType(typeName).Some? && Accepted(ParseType(typeName).value, meta, items)
              && quizId in old(quizzes) && old(quizzes[quizId].userId) == userId ==>
        var t := ParseType(typeName).value;
        var prev := old(quizzes[quizId]);
        var cleared := old(tables)[prev.kind := RemoveListed(old(tables[prev.kind]), prev.questionsId)];
        var ids := FreshIds(old(tables[t].nextId), |items|);
        && reply == Reply(201, Message("Quiz successfully updated."))
        && quizzes == old(quizzes)[quizId := QuizRecord(prev.userId, meta.name, meta.description, meta.topic, t,
                                                        JoinIds(ids), meta.visibility, ImagePath(upload, generatedName))]
        && tables == cleared[t := Insert(cleared[t], items)]
        && itemIds[quizId] == ids
        && (forall k :: k in old(itemIds[quizId]) ==> k !in tables[prev.kind].rows)
        && answers == old(answers)
        && nextQuizId == old(nextQuizId) && nextAnswerId == old(nextAnswerId)
    {
      var parsed := ParseType(typeName);
      if parsed.None? {
        return Reply(400, Messages(["Invalid quiz type"]));
      }
      var t := parsed.value;
      if !AllFit(items, t) {
        return Reply(500, ServerError);
      }
      var failures := Failures(GetValidations(items, meta, t));
      if failures != [] {
        return Reply(400, Messages(failures));
      }
      if quizId !in quizzes {
        return Reply(500, ServerError);
      }
      var prev := quizzes[quizId];
      if prev.userId != userId {
        return Reply(400, Messages(["You cannot edit quiz you did not create"]));
      }
      Rewrite(quizId, meta, t, items, ImagePath(upload, generatedName));
      reply := Reply(201, Message("Quiz successfully updated."));
    }

    /** The commit of update-quiz: the rows the quiz listed leave its previous
        type's table, the new items enter the new type's table under fresh ids,
        and the quiz row is rewritten in place, keeping its id and owner. */
    method Rewrite(quizId: int, meta: QuizMeta, t: QuizType, items: seq<Item>, image: string)
      requires Valid() && quizId in quizzes
      modifies this
      ensures Valid()
      ensures var prev := old(quizzes[quizId]);
        var cleared := old(tables)[prev.kind := RemoveListed(old(tables[prev.kind]), prev.questionsId)];
        var ids := FreshIds(old(tables[t].nextId), |items|);
        && quizzes == old(quizzes)[quizId := QuizRecord(prev.userId, meta.name, meta.description, meta.topic, t,
                                                        JoinIds(ids), meta.visibility, image)]
        && tables == cleared[t := Insert(cleared[t], items)]
        && itemIds[quizId] == ids
        && (forall k :: k in old(itemIds[quizId]) ==> k !in tables[prev.kind].rows)
        && answers == old(answers)
        && nextQuizId == old(nextQuizId) && nextAnswerId == old(nextAnswerId)
    {
      var prev := quizzes[quizId];
      var cleared := tables[prev.kind := RemoveListed(tables[prev.kind], prev.questionsId)];
      var ids := FreshIds(tables[t].nextId, |items|);
      var record := QuizRecord(prev.userId, meta.name, meta.description, meta.topic, t,
                               JoinIds(ids), meta.visibility, image);
      ReplaceKeepsConsistent(quizzes, nextQuizId, tables, itemIds, quizId, items, record);
      tables := cleared[t := Insert(cleared[t], items)];
      quizzes := quizzes[quizId := record];
      itemIds := itemIds[quizId := ids];
    }

    /** delete-quiz. A missing quiz throws (500). Only the owner may delete:
        the quiz row and the rows its `questions_id` lists go; answers stay. */
    method DeleteQuiz(userId: int, quizId: int) returns (reply: Reply)
      requires Valid()
      modifies this
      ensures Valid()
      ensures quizId !in old(quizzes) ==> reply == Reply(500, ServerError) && unchanged(this)
      ensures quizId in old(quizzes) && old(quizzes[quizId].userId) != userId ==>
        reply == Reply(400, Message("You cannot delete quiz you did not create")) && unchanged(this)
      ensures quizId in old(quizzes) && old(quizzes[quizId].userId) == userId ==>
        var kind := old(quizzes[quizId].kind);
        && reply == Reply(201, Message("Quiz successfully deleted."))
        && quizzes == old(quizzes) - {quizId}
        && tables == old(tables)[kind := RemoveListed(old(tables[kind]), old(quizzes[quizId].questionsId))]
        && (forall k :: k in tables[kind].rows <==> k in old(tables[kind].rows) && k !in old(itemIds[quizId]))
        && answers == old(answers)
        && nextQuizId == old(nextQuizId) && nextAnswerId == old(nextAnswerId)
    {
      if quizId !in quizzes {
        return Reply(500, ServerError);
      }
      var quiz := quizzes[quizId];
      if quiz.userId != userId {
        return Reply(400, Message("You cannot delete quiz you did not create"));
      }
      RemoveKeepsConsistent(quizzes, nextQuizId, tables, itemIds, quizId);
      // commit: the rows and the quiz together
      tables := tables[quiz.kind := RemoveListed(tables[quiz.kind], quiz.questionsId)];
      quizzes := quizzes - {quizId};
      itemIds := itemIds - {quizId};
      reply := Reply(201, Message("Quiz successfully deleted."));
    }

    /** isQuizAnswered: some answer row pairs the quiz and the user. */
    predicate HasAnswered(quizId: int, userId: int)
      reads this
    {
      exists i :: 0 <= i < |answers| && answers[i].quizId == quizId && answers[i].userId == userId
    }

    /** answer-quiz for a signed-in user. The creator is refused first, then a
        user who already answered; otherwise exactly one row is appended. The
        quiz's existence is not checked. */
    method AnswerQuiz(userId: int, quizId: int, kind: string, attempt: Attempt) returns (reply: Reply)
      requires Valid()
      modifies this
      ensures Valid()
      ensures quizId in old(quizzes) && old(quizzes[quizId].userId) == userId ==>
        reply == Reply(400, Message("You cannot answer quiz you have created")) && unchanged(this)
      ensures !(quizId in old(quizzes) && old(quizzes[quizId].userId) == userId) && old(HasAnswered(quizId, userId)) ==>
        reply == Reply(400, Message("Quiz is already answered")) && unchanged(this)
      ensures !(quizId in old(quizzes) && old(quizzes[quizId].userId) == userId) && !old(HasAnswered(quizId, userId)) ==>
        && reply == Reply(200, Message("Quiz successfully finished"))
        && answers == old(answers) + [AnswerRowOf(old(nextAnswerId), userId, quizId, kind, attempt)]
        && quizzes == old(quizzes) && tables == old(tables) && itemIds == old(itemIds)
        && nextQuizId == old(nextQuizId) && nextAnswerId == old(nextAnswerId) + 1
      ensures HasAnswered(quizId, userId) || reply.status == 400
    {
      if quizId in quizzes && quizzes[quizId].userId == userId {
        return Reply(400, Message("You cannot answer quiz you have created"));
      }
      if HasAnswered(quizId, userId) {
        return Reply(400, Message("Quiz is already answered"));
      }
      var row := AnswerRowOf(nextAnswerId, userId, quizId, kind, attempt);
      answers := answers + [row];
      nextAnswerId := nextAnswerId + 1;
      assert answers[|answers| - 1] == row;
      reply := Reply(200, Message("Quiz successfully finished"));
    }

    /** answer-quiz without an account: the row is recorded for user 0, with
        no check at all. */
    method AnswerAnonymously(quizId: int, kind: string, attempt: Attempt) returns (reply: Reply)
      requires Valid()
      modifies this
      ensures Valid()
      ensures reply == Reply(200, Message("Quiz successfully finished"))
      ensures answers == old(answers) + [AnswerRowOf(old(nextAnswerId), 0, quizId, kind, attempt)]
      ensures quizzes == old(quizzes) && tables == old(tables) && itemIds == old(itemIds)
      ensures nextQuizId == old(nextQuizId) && nextAnswerId == old(nextAnswerId) + 1
    {
      answers := answers + [AnswerRowOf(nextAnswerId, 0, quizId, kind, attempt)];
      nextAnswerId := nextAnswerId + 1;
      reply := Reply(200, Message("Quiz successfully finished"));
    }

    /** What a listing shows for quiz `id`. */
    function SummaryOf(id: int, isAnswered: bool): (r: Summary)
      requires id in quizzes
      reads this
      ensures r.items == |Split(quizzes[id].questionsId, '|')| && r.kind == quizzes[id].kind
      ensures r.isAnswered == isAnswered
    {
      var q := quizzes[id];
      Summary(q.name, q.description, q.topic, q.kind, |Split(q.questionsId, '|')|, q.imagePath, isAnswered)
    }

    /** get-all-quiz: the public quizzes of the requested type that the
        requester did not create, each marked with whether they answered it. */
    function ListPublicOthers(typeName: string, userId: int): (r: map<int, Summary>)
      reads this
      ensures forall q :: q in r <==>
        q in quizzes && TypeName(quizzes[q].kind) == typeName && quizzes[q].visibility && quizzes[q].userId != userId
      ensures forall q :: q in r ==> r[q] == SummaryOf(q, HasAnswered(q, userId))
    {
      map q | q in quizzes && TypeName(quizzes[q].kind) == typeName && quizzes[q].visibility
                && quizzes[q].userId != userId :: SummaryOf(q, HasAnswered(q, userId))
    }

    /** get-all-created-quiz: every quiz of the requested type the requester
        created, public or private. */
    function ListOwn(typeName: string, userId: int): (r: map<int, Summary>)
      reads this
      ensures forall q :: q in r <==> q in quizzes && TypeName(quizzes[q].kind) == typeName && quizzes[q].userId == userId
      ensures forall q :: q in r ==> r[q] == SummaryOf(q, false)
    {
      map q | q in quizzes && TypeName(quizzes[q].kind) == typeName && quizzes[q].userId == userId :: SummaryOf(q, false)
    }

    /** The item count a listing shows is the number of the quiz's items, except
        that a quiz without items shows 1. */
    lemma ItemCount(q: int)
      requires Valid() && q in quizzes
      ensures |Split(quizzes[q].questionsId, '|')| == if itemIds[q] == [] then 1 else |itemIds[q]|
    {
      if itemIds[q] != [] {
        SplitJoinIds(itemIds[q]);
      } else {
        assert quizzes[q].questionsId == "";
      }
    }

    /** getQuiz: the quiz and the rows of its type's table whose id `Number`
        reads off `questions_id`; a missing quiz throws (None). */
    function GetQuiz(quizId: int): (r: Option<QuizView>)
      reads this
      requires Valid()
      ensures r.Some? <==> quizId in quizzes
      ensures r.Some? ==>
        && r.value.userId == quizzes[quizId].userId && r.value.kind == quizzes[quizId].kind
        && (forall k :: k in r.value.questions <==> k in itemIds[quizId])
        && (forall k :: k in r.value.questions ==> r.value.questions[k] == Serve(k, tables[r.value.kind].rows[k]))
    {
      if quizId !in quizzes then None
      else
        var q := quizzes[quizId];
        var wanted := StringsToNumbers(Split(q.questionsId, '|'));
        var rows := tables[q.kind].rows;
        ListedRowsAreItems(quizId);
        Some(QuizView(quizId, q.userId, q.name, q.description, q.topic, q.kind,
                      map k | k in rows && Finite(k) in wanted :: Serve(k, rows[k]), q.imagePath))
    }

    lemma ListedRowsAreItems(quizId: int)
      requires Valid() && quizId in quizzes
      ensures var q := quizzes[quizId];
        forall k :: k in tables[q.kind].rows && Finite(k) in StringsToNumbers(Split(q.questionsId, '|')) <==>
          k in itemIds[quizId]
    {
      var q := quizzes[quizId];
      forall k ensures k in tables[q.kind].rows && Finite(k) in StringsToNumbers(Split(q.questionsId, '|')) <==>
          k in itemIds[quizId] {
        if k in tables[q.kind].rows {
          NumberedIff(itemIds[quizId], k);
        }
      }
    }
  }
}
