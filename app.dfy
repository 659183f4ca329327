/** The chat page: one question from the user, up to three attempts at
    generating and running SQL for it, and the messages the page shows. */
module App {
  import opened Types
  import opened SqlUtil
  import opened RagUtil

  /** `MAX_RETRIES`: the number of attempts per question. */
  const MaxRetries: nat := 3

  /** `db.run(sql, include_columns=True)`: the result text, or the error raised. */
  type Database = string -> Result<string>

  /** The services the page talks to. Each is indexed by the attempt number, so a
      service may answer differently on a later attempt. */
  datatype World = World(search: nat -> Search, llm: nat -> Llm, run: nat -> Database)

  /** What stays fixed across the attempts for one question. */
  datatype Context = Context(world: World, corpus: seq<Document>, tableInfo: string, question: string)

  /** What the page shows, in the order it shows it. */
  datatype Event =
    | UserMessage(text: string)
    | RetryNotice(sql: Option<string>, error: string, attempt: nat, limit: nat)
    | FailureNotice(sql: Option<string>, error: string)
    | SqlShown(query: string)
    | SuccessNotice
    | TableShown(table: Table)
    | NoResultNotice
    | ConversionError(message: string)

  /** How one attempt ends: generation raised, the query raised, or the query ran. */
  datatype Outcome =
    | GenFailed(error: string)
    | ExecFailed(sql: string, error: string)
    | Succeeded(sql: string, result: string)

  /** Attempt `|memory| + 1`, given the failures before it: generate, clean, run. */
  function Attempt(c: Context, memory: seq<MemoryItem>): Outcome
  {
    var k := |memory| + 1;
    match GenerateSql(c.world.search(k), c.world.llm(k), c.corpus, c.question, c.tableInfo, memory)
    case Err(e) => GenFailed(e)
    case Ok(raw) =>
      var sql := CleanSqlResponse(raw);
      match c.world.run(k)(sql)
      case Err(e) => ExecFailed(sql, e)
      case Ok(result) => Succeeded(sql, result)
  }

  /** The outcome of the attempt made with a given log of earlier failures. */
  type Attempts = seq<MemoryItem> -> Outcome

  /** The attempts for one question. */
  function AttemptsFor(c: Context): Attempts
  {
    memory => Attempt(c, memory)
  }

  /** `sql_query` when the next attempt starts: it is never reset between
      attempts, so it is the SQL of the latest failure, or None before the first. */
  function Pending(memory: seq<MemoryItem>): Option<string>
  {
    if memory == [] then None else memory[|memory| - 1].sql
  }

  /** The entry a failed attempt appends: this attempt's SQL when running it
      failed, and the SQL left over from before when generation failed. */
  function Recorded(o: Outcome, before: seq<MemoryItem>): (item: MemoryItem)
    requires !o.Succeeded?
    ensures item.error == o.error
    ensures o.ExecFailed? ==> item.sql == Some(o.sql)
    ensures o.GenFailed? && before == [] ==> item.sql == None
    ensures o.GenFailed? && before != [] ==> item.sql == before[|before| - 1].sql
  {
    MemoryItem(if o.ExecFailed? then Some(o.sql) else Pending(before), o.error)
  }

  /** `memory` is the log of attempts 1 to `|memory|`: each failed, and each
      entry is what its attempt recorded. */
  predicate Logged(attempt: Attempts, memory: seq<MemoryItem>)
    decreases |memory|
  {
    memory == [] ||
    (var before := memory[..|memory| - 1];
     var o := attempt(before);
     && Logged(attempt, before)
     && !o.Succeeded?
     && memory[|memory| - 1] == Recorded(o, before))
  }

  /** The state the retry loop leaves: at most three attempts; either the
      attempt after the logged failures succeeded and its SQL and result are
      kept, or all three failed and neither SQL nor result is kept. */
  predicate Retried(attempt: Attempts, sqlQuery: Option<string>, queryResult: Option<string>, memory: seq<MemoryItem>)
  {
    && Logged(attempt, memory)
    && |memory| <= MaxRetries
    && (queryResult.Some? ==>
          && |memory| < MaxRetries
          && sqlQuery.Some?
          && attempt(memory) == Succeeded(sqlQuery.value, queryResult.value))
    && (queryResult.None? ==> |memory| == MaxRetries && sqlQuery == None)
  }

  /** The message for a failure: a retry counter before the last attempt,
      the bare failure on the last. */
  function Notice(attempt: nat, item: MemoryItem): (e: Event)
    ensures attempt < MaxRetries <==> e.RetryNotice?
    ensures e.RetryNotice? || e.FailureNotice?
    ensures e.sql == item.sql && e.error == item.error
    ensures e.RetryNotice? ==> e.attempt == attempt && e.limit == MaxRetries
  {
    if attempt < MaxRetries then RetryNotice(item.sql, item.error, attempt, MaxRetries)
    else FailureNotice(item.sql, item.error)
  }

  /** The failure messages for a log, one per entry, in attempt order. */
  function Notices(memory: seq<MemoryItem>): (r: seq<Event>)
    ensures |r| == |memory|
    decreases |memory|
  {
    if memory == [] then []
    else Notices(memory[..|memory| - 1]) + [Notice(|memory|, memory[|memory| - 1])]
  }

  /** The `i`-th message is the notice for attempt `i + 1` and its entry. */
  lemma {:induction false} NoticesAt(memory: seq<MemoryItem>, i: nat)
    requires i < |memory|
    ensures Notices(memory)[i] == Notice(i + 1, memory[i])
    decreases |memory|
  {
    var before := memory[..|memory| - 1];
    if i < |before| {
      NoticesAt(before, i);
      assert before[i] == memory[i];
    }
  }

  /** Only the third failure is announced without a retry counter, so the
      final failure message shows up exactly when the page gave up. */
  lemma GaveUpNoticed(memory: seq<MemoryItem>)
    requires |memory| <= MaxRetries
    ensures (exists i :: 0 <= i < |memory| && Notices(memory)[i].FailureNotice?) <==> |memory| == MaxRetries
    ensures forall i :: 0 <= i < |memory| && Notices(memory)[i].RetryNotice? ==> Notices(memory)[i].attempt == i + 1
  {
    forall i | 0 <= i < |memory|
      ensures Notices(memory)[i] == Notice(i + 1, memory[i])
    {
      NoticesAt(memory, i);
    }
    if |memory| == MaxRetries {
      assert Notices(memory)[MaxRetries - 1].FailureNotice?;
    }
  }

  /** A failed attempt extends the log with its record, which becomes the
      pending SQL and adds the next notice. */
  lemma LogFailure(attempt: Attempts, memory: seq<MemoryItem>, item: MemoryItem)
    requires Logged(attempt, memory) && !attempt(memory).Succeeded?
    requires item == Recorded(attempt(memory), memory)
    ensures Logged(attempt, memory + [item])
    ensures Pending(memory + [item]) == item.sql
    ensures Notices(memory + [item]) == Notices(memory) + [Notice(|memory| + 1, item)]
  {
    assert (memory + [item])[..|memory|] == memory;
  }

  /** A prefix of a log is the log of the earlier attempts. */
  lemma {:induction false} LoggedPrefix(attempt: Attempts, memory: seq<MemoryItem>, n: nat)
    requires Logged(attempt, memory) && n <= |memory|
    ensures Logged(attempt, memory[..n])
    decreases |memory|
  {
    if n < |memory| {
      var before := memory[..|memory| - 1];
      assert before[..n] == memory[..n];
      LoggedPrefix(attempt, before, n);
    } else {
      assert memory[..n] == memory;
    }
  }

  /** Entry `i` is the record of attempt `i + 1`, which was given exactly the
      entries before it and failed. */
  lemma LoggedAt(attempt: Attempts, memory: seq<MemoryItem>, i: nat)
    requires Logged(attempt, memory) && i < |memory|
    ensures !attempt(memory[..i]).Succeeded?
    ensures memory[i] == Recorded(attempt(memory[..i]), memory[..i])
  {
    LoggedPrefix(attempt, memory, i + 1);
    var upto := memory[..i + 1];
    assert upto[..i] == memory[..i] && upto[i] == memory[i];
  }

  /** The log of a given length is fixed by the services: two logs of the
      same attempts are the same. */
  lemma {:induction false} LoggedUnique(attempt: Attempts, m1: seq<MemoryItem>, m2: seq<MemoryItem>)
    requires Logged(attempt, m1) && Logged(attempt, m2) && |m1| == |m2|
    ensures m1 == m2
    decreases |m1|
  {
    if m1 != [] {
      LoggedUnique(attempt, m1[..|m1| - 1], m2[..|m2| - 1]);
      assert m1 == m1[..|m1| - 1] + [m1[|m1| - 1]];
      assert m2 == m2[..|m2| - 1] + [m2[|m2| - 1]];
    }
  }

  /** The state the retry loop leaves is determined by the services: the loop
      stops at the first success, so no two states fit. */
  lemma RetriedUnique(attempt: Attempts, s1: Option<string>, r1: Option<string>, m1: seq<MemoryItem>,
                      s2: Option<string>, r2: Option<string>, m2: seq<MemoryItem>)
    requires Retried(attempt, s1, r1, m1) && Retried(attempt, s2, r2, m2)
    ensures s1 == s2 && r1 == r2 && m1 == m2
  {
    if |m1| < |m2| {
      LoggedAt(attempt, m2, |m1|);
      LoggedPrefix(attempt, m2, |m1|);
      LoggedUnique(attempt, m1, m2[..|m1|]);
      assert false;
    } else if |m2| < |m1| {
      LoggedAt(attempt, m1, |m2|);
      LoggedPrefix(attempt, m1, |m2|);
      LoggedUnique(attempt, m2, m1[..|m2|]);
      assert false;
    } else {
      LoggedUnique(attempt, m1, m2);
    }
  }

  /** A recorded SQL text is one that was cleaned and run and raised, on that
      attempt or an earlier one; a missing one means no attempt so far got as
      far as running its SQL. */
  lemma {:induction false} RecordedSqlWasRun(attempt: Attempts, memory: seq<MemoryItem>, i: nat)
    requires Logged(attempt, memory) && i < |memory|
    ensures memory[i].sql.Some? ==>
      exists j :: 0 <= j <= i && attempt(memory[..j]) == ExecFailed(memory[i].sql.value, memory[j].error)
    ensures memory[i].sql.None? ==> forall j :: 0 <= j <= i ==> attempt(memory[..j]).GenFailed?
    decreases i
  {
    LoggedAt(attempt, memory, i);
    var o := attempt(memory[..i]);
    if o.GenFailed? && i > 0 {
      RecordedSqlWasRun(attempt, memory, i - 1);
      assert memory[..i][i - 1] == memory[i - 1];
    }
  }

  /** The body of one attempt: `run_rag`, `clean_sql_response` and `db.run`,
      ending in the first exception raised or the query's result. */
  method TryOnce(ghost attempt: Attempts, w: World, store: VectorStore, userInput: string, tableInfo: string,
                 memory: seq<MemoryItem>, retry: nat)
    returns (outcome: Outcome)
    requires retry == |memory| + 1
    requires attempt == AttemptsFor(Context(w, store.documents, tableInfo, userInput))
    ensures outcome == attempt(memory)
  {
    var generated := RunRag(w.search(retry), w.llm(retry), store, userInput, tableInfo, memory);
    if generated.Err? {
      return GenFailed(generated.error);
    }
    var sqlQuery := CleanSqlResponse(generated.value);
    var executed := w.run(retry)(sqlQuery);
    if executed.Err? {
      return ExecFailed(sqlQuery, executed.error);
    }
    return Succeeded(sqlQuery, executed.value);
  }

  /** The retry loop: up to `MAX_RETRIES` attempts, each failure appended to
      `memory` and announced, `sql_query` kept from one attempt to the next
      and cleared after the last failure. */
  method RetryLoop(w: World, store: VectorStore, userInput: string, tableInfo: string)
    returns (sqlQuery: Option<string>, queryResult: Option<string>, memory: seq<MemoryItem>, notices: seq<Event>)
    ensures Retried(AttemptsFor(Context(w, store.documents, tableInfo, userInput)), sqlQuery, queryResult, memory)
    ensures notices == Notices(memory)
  {
    ghost var attempt := AttemptsFor(Context(w, store.documents, tableInfo, userInput));
    sqlQuery, queryResult, memory, notices := None, None, [], [];
    for retry := 1 to MaxRetries + 1
      invariant |memory| == retry - 1 < MaxRetries
      invariant queryResult == None
      invariant sqlQuery == Pending(memory)
      invariant Logged(attempt, memory)
      invariant notices == Notices(memory)
    {
      var outcome := TryOnce(attempt, w, store, userInput, tableInfo, memory, retry);
      if outcome.Succeeded? {
        sqlQuery, queryResult := Some(outcome.sql), Some(outcome.result);
        break;
      }
      if outcome.ExecFailed? {
        sqlQuery := Some(outcome.sql);
      }
      var item := MemoryItem(sqlQuery, outcome.error);
      LogFailure(attempt, memory, item);
      memory := memory + [item];
      if retry < MaxRetries {
        notices := notices + [RetryNotice(sqlQuery, outcome.error, retry, MaxRetries)];
      } else {
        notices := notices + [FailureNotice(sqlQuery, outcome.error)];
        sqlQuery := None;
        break;
      }
    }
  }

  /** The messages after the loop: the SQL, then either the success notice
      followed by the table, or the no-result notice, or the conversion error,
      each once; nothing at all when there is no SQL to show. */
  function Report(sqlQuery: Option<string>, converted: Result<Table>): (r: seq<Event>)
    ensures sqlQuery == None || sqlQuery == Some("") ==> r == []
    ensures sqlQuery.Some? && sqlQuery.value != "" ==> 2 <= |r| <= 3 && r[0] == SqlShown(sqlQuery.value)
    ensures forall t :: TableShown(t) in r <==> r != [] && converted == Ok(t) && !IsEmpty(t)
    ensures SuccessNotice in r <==> r != [] && converted.Ok? && !IsEmpty(converted.value)
    ensures NoResultNotice in r <==> r != [] && converted.Ok? && IsEmpty(converted.value)
    ensures forall m :: ConversionError(m) in r <==> r != [] && converted == Err(m)
    ensures r != [] && converted.Err? ==> |r| == 2
    ensures r != [] && converted.Ok? && IsEmpty(converted.value) ==> |r| == 2
    ensures r != [] && converted.Ok? && !IsEmpty(converted.value) ==>
      |r| == 3 && r[1] == SuccessNotice && r[2] == TableShown(converted.value)
  {
    if sqlQuery.None? || sqlQuery.value == "" then []
    else
      var shown := SqlShown(sqlQuery.value);
      match converted
      case Err(e) => [shown, ConversionError(e)]
      case Ok(table) => if !IsEmpty(table) then [shown, SuccessNotice, TableShown(table)] else [shown, NoResultNotice]
  }

  /** The messages after the loop, as the page shows them: the SQL, then the
      conversion of the result and what it gives. */
  method ShowResult(sqlQuery: Option<string>, queryResult: Option<string>, parse: string -> Parsed)
    returns (report: seq<Event>)
    ensures report == Report(sqlQuery, ConvertResultToDf(queryResult, parse))
  {
    report := [];
    if sqlQuery.Some? && sqlQuery.value != "" {
      report := [SqlShown(sqlQuery.value)];
      var resultDf := ConvertResultToDf(queryResult, parse);
      if resultDf.Err? {
        report := report + [ConversionError(resultDf.error)];
      } else if !IsEmpty(resultDf.value) {
        report := report + [SuccessNotice, TableShown(resultDf.value)];
      } else {
        report := report + [NoResultNotice];
      }
    }
  }

  /** One question on the page: nothing happens without input; otherwise the
      question, the failure notices, and the report of the SQL that ran. */
  method HandleInput(w: World, store: VectorStore, tableInfo: string, userInput: Option<string>,
                     parse: string -> Parsed)
    returns (events: seq<Event>, sqlQuery: Option<string>, queryResult: Option<string>, memory: seq<MemoryItem>)
    ensures userInput == None || userInput == Some("") ==> events == [] && memory == []
    ensures userInput.Some? && userInput.value != "" ==>
      && Retried(AttemptsFor(Context(w, store.documents, tableInfo, userInput.value)), sqlQuery, queryResult, memory)
      && events == [UserMessage(userInput.value)] + Notices(memory) + Report(sqlQuery, ConvertResultToDf(queryResult, parse))
    ensures userInput.Some? && userInput.value != "" && queryResult == None ==>
      events == [UserMessage(userInput.value)] + Notices(memory)
  {
    events, sqlQuery, queryResult, memory := [], None, None, [];
    if userInput.Some? && userInput.value != "" {
      var notices;
      sqlQuery, queryResult, memory, notices := RetryLoop(w, store, userInput.value, tableInfo);
      var report := ShowResult(sqlQuery, queryResult, parse);
      events := [UserMessage(userInput.value)] + notices + report;
      assert report == [] ==> events == [UserMessage(userInput.value)] + notices;
    }
  }
}
