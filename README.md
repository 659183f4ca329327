# Text-to-SQL chat page, modelled in Dafny

The system is a small Streamlit page. It answers a question about a database by having a language model write SQL for it, with retrieval-augmented prompting:

- **Indexing.** At start-up, every JSON list under `rags/` is indexed. Each entry with a `question` and a `response` becomes a document in an in-memory vector store.
- **Generating.** For each question, the page retrieves the most similar indexed question. It builds a prompt from:
  - a fixed instruction template;
  - the retrieved example;
  - a memory of earlier failed attempts.

  The model's answer is then cleaned into bare SQL and run against the database.
- **Retrying.** Up to three attempts are made. Every failure is recorded in the memory and announced on the page.
- **Showing the result.** On success, the SQL is shown. The database's textual result then has its `Decimal`, `date` and UTC `datetime` literals rewritten, is parsed, and is shown as a table.

The model has one Dafny module per source file, plus three supporting modules:

- `App` (`app.dfy`): `app.py`: the retry loop as a method with loop invariants, the attempt log, the notices and the report shown after the loop.
- `SqlUtil` (`sql_util.dfy`): `sql_util.py`: `clean_sql_response`, the four literal rewrites and the empty/non-list rules of `convert_result_to_df`.
- `RagUtil` (`rag_util.dfy`): `utils/rag_util.py`: indexing (`get_vector_store`, a method over a `VectorStore` class) and `run_rag` (example selection, the memory fold, the prompt call).
- `PromptUtil` (`prompt_util.dfy`): `utils/prompt_util.py`: `get_sql_prompt` as a string function.
- `Text` (`text.dfy`): Python's `str.strip`/`lstrip`/`rstrip` (with `str.isspace`'s exact character set), `str.replace`, `startswith` and `in` on strings.
- `Regex` (`regex.dfy`): the fragment of `re` the rewrites use: literal text, `.`, and counted groups of `\d` / `[\d\.]`. It has a matcher, a declarative reference (`Fits`) with soundness and completeness, and the left-to-right `re.sub` scan.
- `Types` (`types.dfy`): `Option`, `Result` and sequence regrouping lemmas.

Where the repository's documented behaviour and its code disagree, the model follows the code:

- Cleaning is not idempotent. The label is stripped once, at position 0, before the fences are removed (`SqlUtil.CleanIsNotIdempotent`).
- Date and time fields are copied as written. They are not zero-padded and not converted to UTC.
- Only UTC datetimes with exactly five or four fields after the year are rewritten. One with microseconds, or with seconds and microseconds, reaches `literal_eval` unchanged, which rejects it as not a literal (`SqlUtil.OtherFieldCountReachesParser`).
- A generation failure on attempt k > 1 records the SQL of the previous failure, not a missing SQL, because `sql_query` is never reset (`App.Recorded`).
- Retrieval happens again on every attempt: `run_rag` runs `similarity_search` each time it is called.
- An entry lacking `question` or `response` is skipped. A file that cannot be read or parsed, or an entry that makes Python raise, fails the whole indexing.

## Model

| member | source | states |
|---|---|---|
| `Text.TrimStart` | sql_util.py:12 | the result is a suffix of the input; everything dropped is whitespace; the result does not start with whitespace (`\s*` and `lstrip`) |
| `Text.TrimEnd` | sql_util.py:12 | the result is a prefix of the input; everything dropped is whitespace; the result does not end with whitespace |
| `Text.Strip` | sql_util.py:12 | `strip()` leaves text with no whitespace at either end |
| `Text.StripPads` | sql_util.py:12 | the input of `strip()` is its result with whitespace added on both sides |
| `Text.StripPadded` | sql_util.py:15 | stripping trimmed text padded with whitespace gives back exactly that text |
| `Text.StripTrimmed` | sql_util.py:15 | `strip()` of text with no outer whitespace is the identity |
| `Text.TrimStartPadded` | sql_util.py:12 | dropping leading whitespace removes exactly the whitespace in front of non-whitespace text |
| `Text.TrimEndPadded` | sql_util.py:12 | dropping trailing whitespace removes exactly the whitespace behind non-whitespace text |
| `Text.StripKeepsAbsent` | sql_util.py:15 | stripping never creates an occurrence of a substring |
| `Text.ReplaceAllAbsent` | sql_util.py:15 | `replace` leaves text alone when the pattern does not occur |
| `Text.ReplaceAllSkips` | sql_util.py:15 | `replace` copies a prefix without the pattern's first character and continues behind it |
| `Text.FenceRemovalComplete` | sql_util.py:15 | after `replace("```", "")` no "```" remains, even where deleting one fence joins backticks from both sides |
| `Text.ReplaceAll` | sql_util.py:15 | `str.replace`: each occurrence is replaced, left to right and without overlap; its behaviour is stated by `Text.ReplaceAllAbsent`, `Text.ReplaceAllSkips` and `Text.FenceRemovalComplete` |
| `Regex.MatchPrefix` | sql_util.py:30 | a match starting at position 0 lies within the input and captures one text per group |
| `Regex.Sub` | sql_util.py:30-43 | `re.sub`: scanning left to right, each match is replaced by the expanded template and the scan resumes after it; other characters are copied; its behaviour is stated by `Regex.SubReplaces`, `Regex.SubCopies`, `Regex.SubNoMatch` and `Regex.SubWithout` |
| `Regex.MatchPrefixSound` | sql_util.py:30-43 | whatever the matcher finds is a fit of the pattern, with those captures |
| `Regex.MatchPrefixComplete` | sql_util.py:30-43 | for a pattern whose groups are each followed by a literal outside their class, any fitting prefix is the one the matcher finds, with the same captures |
| `Regex.MatchIsUnique` | sql_util.py:30-43 | for such patterns at most one prefix fits, with one set of captures |
| `Regex.SubReplaces` | sql_util.py:30-43 | `re.sub` replaces a fitting prefix by the expanded template and continues right after it |
| `Regex.SubCopies` | sql_util.py:30-43 | `re.sub` copies text lacking the pattern's first character unchanged and continues behind it |
| `Regex.SubNoMatch` | sql_util.py:30-43 | with no match at any position, `re.sub` returns its input |
| `Regex.SubWithout` | sql_util.py:30-43 | text lacking a character of one of the pattern's literals is returned unchanged |
| `Regex.ExpandAppend` | sql_util.py:34 | expanding two template parts one after the other gives the two expansions concatenated |
| `Regex.ExpandExtra` | sql_util.py:39 | extra captures do not change the expansion of a template that does not refer to them |
| `SqlUtil.CleanSqlResponse` | sql_util.py:7-17 | the cleaned SQL has no outer whitespace and contains no "```" |
| `SqlUtil.StripLabel` | sql_util.py:12 | `re.sub(r"^SQLQuery:\s*", "", …)`: a label at position 0 and the whitespace after it go, once; stated by `SqlUtil.CleanRemovesLabel` and `SqlUtil.CleanKeepsLabelInsideFence` |
| `SqlUtil.CleanKeepsBareSql` | sql_util.py:7-17 | trimmed SQL without backticks or label passes through unchanged |
| `SqlUtil.CleanRemovesLabel` | sql_util.py:12 | a leading `SQLQuery:` and the whitespace after it are removed |
| `SqlUtil.CleanUnwrapsFence` | sql_util.py:15 | a "```sql … ```" block is unwrapped to the SQL inside it, whatever whitespace surrounds the SQL inside the fences |
| `SqlUtil.CleanKeepsLabelInsideFence` | sql_util.py:12-15 | a label inside a fence survives, since the label is only recognised at position 0 and before the fences go |
| `SqlUtil.CleanIsNotIdempotent` | sql_util.py:12-15 | `SQLQuery: SQLQuery: q` cleans to `SQLQuery: q`, which cleans again to `q` |
| `SqlUtil.RewriteDecimals` | sql_util.py:30 | the `Decimal` substitution; stated by `SqlUtil.DecimalRewritten`, `SqlUtil.DecimalKept` and `SqlUtil.NegativeDecimalKept` |
| `SqlUtil.RewriteDates` | sql_util.py:33-34 | the `date` substitution; stated by `SqlUtil.DateRewritten` |
| `SqlUtil.RewriteDateTimes6` | sql_util.py:37-39 | the substitution of UTC datetimes with seconds; stated by `SqlUtil.DateTime6Rewritten`, `SqlUtil.NaiveDateTimeKept` and `SqlUtil.OtherZoneKept` |
| `SqlUtil.RewriteDateTimes5` | sql_util.py:41-43 | the substitution of UTC datetimes without seconds; stated by `SqlUtil.DateTime5Rewritten`, `SqlUtil.NaiveDateTimeKept` and `SqlUtil.OtherZoneKept` |
| `SqlUtil.RewriteLiterals` | sql_util.py:29-43 | the four substitutions in the source's order: decimals, dates, datetimes with seconds, datetimes without; what each literal becomes after all four is stated by `SqlUtil.DecimalReachesParser`, `SqlUtil.DateReachesParser`, `SqlUtil.DateTime6ReachesParser`, `SqlUtil.DateTime5ReachesParser` and `SqlUtil.OtherFieldCountReachesParser` |
| `SqlUtil.DecimalRewritten` | sql_util.py:30 | `Decimal('d')`, where d is digits and dots, becomes d, and the text after it is rewritten on its own |
| `SqlUtil.DecimalNoMatch` | sql_util.py:30 | the pattern does not match at `Decimal('x')` when the run of digits and dots at the front of x is empty or is followed by anything but the closing quote |
| `SqlUtil.DecimalKept` | sql_util.py:30 | such a `Decimal('x')` (a sign, an exponent, `NaN`, `Infinity`) is copied unchanged, and the text after it is rewritten on its own |
| `SqlUtil.NegativeDecimalKept` | sql_util.py:30 | a negative `Decimal` is left as it is |
| `SqlUtil.ExponentDecimalKept` | sql_util.py:30 | a `Decimal` in exponent notation, such as `Decimal('0E-10')`, is copied unchanged, and the text after it is rewritten on its own |
| `SqlUtil.DateRewritten` | sql_util.py:33-34 | `datetime.date(Y, M, D)` becomes `"Y-M-D"` with the digits as written |
| `SqlUtil.DateTime6Rewritten` | sql_util.py:37-39 | a UTC `datetime` with seconds becomes `"Y-M-D h:m:s"` |
| `SqlUtil.DateTime5Rewritten` | sql_util.py:41-43 | a UTC `datetime` without seconds becomes `"Y-M-D h:m:00"` |
| `SqlUtil.ZonelessKept` | sql_util.py:37-43 | text without a `z` is untouched by both datetime rewrites |
| `SqlUtil.NaiveDateTimeKept` | sql_util.py:37-43 | a `datetime` with no `tzinfo` at all is not rewritten by either datetime rewrite |
| `SqlUtil.FieldsNoMatch` | sql_util.py:38-42 | the fields and zone of a datetime pattern do not match fields followed by a keyword argument when their number is not the one the pattern asks for or the keyword argument is not the UTC zone |
| `SqlUtil.DatedNoMatch` | sql_util.py:38-42 | a datetime pattern does not match at a `datetime` whose keyword arguments do not start with the UTC zone, nor at one with a number of fields other than the pattern's |
| `SqlUtil.HeadCopied` | sql_util.py:33-43 | any of the three `datetime.` patterns that does not match at the head `datetime.datetime(Y, f1, …, fn` of a `datetime` copies that head unchanged and carries on in the keyword arguments |
| `SqlUtil.DatedHeadKept` | sql_util.py:37-43 | at such a `datetime`, `re.sub` copies `datetime.datetime(Y, f1, …, fn` unchanged and carries on in the keyword arguments |
| `SqlUtil.OtherZoneHeadKept` | sql_util.py:37-43 | a `datetime` whose `tzinfo` is not `datetime.timezone.utc` (a fixed offset such as `datetime.timezone(datetime.timedelta(seconds=28800))`, or a named zone) keeps its year and fields under both datetime rewrites |
| `SqlUtil.OtherZoneKept` | sql_util.py:37-43 | such a `datetime` is kept whole when its keyword arguments hold no other `datetime.datetime(` |
| `SqlUtil.UtcSuffixCopied` | sql_util.py:33-43 | the `date` and both datetime patterns copy `, tzinfo=datetime.timezone.utc)` unchanged |
| `SqlUtil.DatesSkipDateTime` | sql_util.py:33-34 | the `date` rewrite copies a UTC `datetime` unchanged |
| `SqlUtil.DatedSkipsOtherCount` | sql_util.py:37-43 | a datetime rewrite copies a UTC `datetime` whose number of fields is not the one its pattern asks for |
| `SqlUtil.DecimalsSkip` | sql_util.py:30 | the `Decimal` rewrite copies text without a `D` |
| `SqlUtil.DateTimesSkip` | sql_util.py:37-43 | both datetime rewrites copy text without a `d` |
| `SqlUtil.LaterRewritesSkip` | sql_util.py:33-43 | the three rewrites after the `Decimal` one copy text without a `d` |
| `SqlUtil.DecimalReachesParser` | sql_util.py:29-46 | `Decimal('d')` reaches `literal_eval` as d, and the text after it as the four rewrites leave it |
| `SqlUtil.DateReachesParser` | sql_util.py:29-46 | `datetime.date(Y, M, D)` reaches `literal_eval` as `"Y-M-D"` |
| `SqlUtil.DateTime6ReachesParser` | sql_util.py:29-46 | a UTC `datetime` with seconds reaches `literal_eval` as `"Y-M-D h:m:s"` |
| `SqlUtil.DateTime5ReachesParser` | sql_util.py:29-46 | a UTC `datetime` without seconds reaches `literal_eval` as `"Y-M-D h:m:00"`, the six-field rewrite having left it alone |
| `SqlUtil.OtherFieldCountReachesParser` | sql_util.py:29-46 | a UTC `datetime` with a number of fields other than five and four, such as one with microseconds, reaches `literal_eval` unchanged, where the `datetime` name is not a literal |
| `SqlUtil.DayExpands` | sql_util.py:34 | the template `"\1-\2-\3` expands to a quote and the three captures joined by dashes |
| `SqlUtil.DateExpands` | sql_util.py:34 | `"\1-\2-\3"` expands to the quoted date |
| `SqlUtil.DateTime6Expands` | sql_util.py:39 | `"\1-\2-\3 \4:\5:\6"` expands to the quoted datetime |
| `SqlUtil.DateTime5Expands` | sql_util.py:43 | `"\1-\2-\3 \4:\5:00"` expands to the quoted datetime with `00` seconds |
| `SqlUtil.ConvertResultToDf` | sql_util.py:21-52 | None or "" gives an empty table; otherwise the rewritten text is parsed: a parse error is the error, a truthy non-list value gives an empty table, and a list or a falsy value gives pandas' table or error |
| `PromptUtil.BasePlaceholders` | utils/prompt_util.py:10-41 | the base template holds `{table_info}`, `{input}` and `{top_k}` |
| `PromptUtil.ExampleHeaderOnlyWithExample` | utils/prompt_util.py:43-55 | what follows the base template opens with the example header exactly when an example is present |
| `PromptUtil.PromptShape` | utils/prompt_util.py:43-55 | for any base text, the prompt's shape in each of the four presence cases |
| `PromptUtil.GetSqlPrompt` | utils/prompt_util.py:5-57 | the base template is a prefix; the example header follows it exactly when the example is neither None nor ""; each section is there exactly when its text is present; the example's section comes before the memory's; each text appears whole inside its section |
| `RagUtil.EntryDocs` | utils/rag_util.py:24-31 | an entry yields at most one document; it yields none exactly when the `in` tests fail without raising; it yields a document exactly when it is an object with both keys, with the question as content and the response as metadata, and embedding that document succeeds; when embedding it fails, the entry fails with the embedding error |
| `RagUtil.EntriesDocs` | utils/rag_util.py:24-31 | the documents of a list's entries in order, or the first entry's error; stated by `RagUtil.EntriesSound`, `RagUtil.EntriesComplete` and `RagUtil.EntryFails` |
| `RagUtil.FileDocs` | utils/rag_util.py:20-23 | a file that cannot be read or parsed is an error; a file holding a list contributes its entries' documents; any other file contributes nothing |
| `RagUtil.Corpus` | utils/rag_util.py:20-31 | the documents of all files in the loader's order, or the first error; stated by `RagUtil.CorpusSound`, `RagUtil.CorpusComplete`, `RagUtil.GatherFailsAt` and `RagUtil.GatherAppend`, and tied to the store by `RagUtil.GetVectorStore` |
| `RagUtil.VectorStore.constructor` | utils/rag_util.py:15 | a new store is empty |
| `RagUtil.VectorStore.AddDocuments` | utils/rag_util.py:26-31 | `add_documents` returns the embedding error, if any; on success it appends the documents after the existing ones, and on failure it leaves the store as it was |
| `RagUtil.GetVectorStore` | utils/rag_util.py:12-33 | indexing succeeds exactly when the corpus does, and the store then holds the corpus's documents in file and entry order; on failure it returns the corpus's error |
| `RagUtil.GatherFailsAt` | utils/rag_util.py:20-31 | the first file or entry that raises makes indexing fail with its error |
| `RagUtil.EntryFails` | utils/rag_util.py:24-31 | an entry that raises fails the whole corpus with its error |
| `RagUtil.EmbeddingFails` | utils/rag_util.py:26-31 | an indexable entry whose document cannot be embedded, after entries and files that indexed cleanly, fails the whole corpus with the embedding error |
| `RagUtil.GatherAppend` | utils/rag_util.py:20-31 | indexing two groups of files gives the first group's documents, then the second's; an error in the first group wins |
| `RagUtil.EntriesSound` | utils/rag_util.py:24-31 | every document of a list comes from an indexable entry of it and was embedded without error |
| `RagUtil.CorpusSound` | utils/rag_util.py:20-31 | every indexed document comes from an indexable entry of a file holding a list and was embedded without error |
| `RagUtil.EntriesComplete` | utils/rag_util.py:24-31 | every indexable entry has a text question and is indexed |
| `RagUtil.CorpusComplete` | utils/rag_util.py:20-31 | every indexable entry of every list file is in the corpus |
| `RagUtil.MemoryString` | utils/rag_util.py:55-61 | `memory_str` is "" exactly when the memory is empty |
| `RagUtil.MemoryBlock` | utils/rag_util.py:58-61 | one item's memory text: its SQL, then its error; stated by `RagUtil.MemoryStringAt` |
| `RagUtil.MemoryStringAppend` | utils/rag_util.py:57-61 | the memory text of two logs in sequence is the two texts in sequence |
| `RagUtil.MemoryStringAt` | utils/rag_util.py:57-61 | item i's block appears whole, after the blocks of the items before it and before those after it |
| `RagUtil.BestMatch` | utils/rag_util.py:45-47 | the first retrieved document, or None exactly when nothing was retrieved |
| `RagUtil.Example` | utils/rag_util.py:49-52 | the example is None exactly when nothing was retrieved; otherwise it is the first match's text and is non-empty |
| `RagUtil.ExampleText` | utils/rag_util.py:49-52 | the example text for a match: its question, then its stored response; stated by `RagUtil.ExampleShowsMatch` |
| `RagUtil.ExampleShowsMatch` | utils/rag_util.py:49-52 | the example holds the match's question and then its response, each whole |
| `RagUtil.Call` | utils/rag_util.py:64-71 | the prompt gets an example exactly when something was retrieved, and an empty memory text exactly when there were no failures; the placeholders get the question, the table description and 20 |
| `RagUtil.CallTemplateSections` | utils/rag_util.py:64 | the prompt has the example section exactly when something was retrieved, and the memory section, after it, exactly when there were failures |
| `RagUtil.GenerateSql` | utils/rag_util.py:42-73 | retrieval, then one model call on the prompt `RagUtil.Call` builds; a retrieval error is the result; `RagUtil.RunRag` is proved equal to it |
| `RagUtil.RunRag` | utils/rag_util.py:36-74 | the loop that builds `memory_str` and the selection give the same answer as one generation step over the store's documents; the store and the memory are left alone |
| `App.Recorded` | app.py:41-68 | a failure's entry carries its error; when running failed, it carries this attempt's SQL; when generation failed, it carries the previous entry's SQL, or None on the first attempt |
| `App.Attempt` | app.py:47-55 | one attempt: generate with the failures so far, clean, run; the three outcomes are stated by `App.TryOnce` |
| `App.Pending` | app.py:41-68 | `sql_query` at the start of an attempt: the SQL of the latest failure, or None before the first, as `App.Recorded` states |
| `App.Logged` | app.py:46-68 | the log of the attempts so far, each a failure and each entry its record; stated by `App.LoggedPrefix`, `App.LoggedAt` and `App.LoggedUnique` |
| `App.Retried` | app.py:41-84 | the state the retry loop leaves; `App.RetryLoop` establishes it and `App.RetriedUnique` shows it is unique |
| `App.Notice` | app.py:71-80 | a failure before the last attempt shows the retry counter `attempt/3` (the attempt number over `MAX_RETRIES`), and the last one shows the bare failure, each with the entry's SQL and error |
| `App.NoticesAt` | app.py:71-80 | the i-th notice is attempt i + 1's notice for entry i |
| `App.GaveUpNoticed` | app.py:71-80 | the final failure notice appears exactly when all three attempts failed; every retry notice counts its own attempt |
| `App.LogFailure` | app.py:65-68 | a failure appends exactly its record; the record becomes the pending SQL and adds the next notice |
| `App.LoggedPrefix` | app.py:46-68 | a prefix of the log is the log of the earlier attempts |
| `App.LoggedAt` | app.py:49-68 | entry i is the record of attempt i + 1, which failed and was given exactly the i entries before it |
| `App.LoggedUnique` | app.py:46-68 | two logs of the same length for the same services are equal |
| `App.RetriedUnique` | app.py:46-84 | the loop's final state is determined by the services: it stops at the first success |
| `App.RecordedSqlWasRun` | app.py:41-68 | a recorded SQL is one that was run and raised, on this attempt or an earlier one; a missing one means every attempt so far failed in generation |
| `App.TryOnce` | app.py:47-55 | one attempt's outcome is the generation, cleaning and run for the attempt given the failures so far |
| `App.RetryLoop` | app.py:41-84 | at most three attempts; either the attempt after the logged failures succeeded and its SQL and result are kept, or all three failed and neither is kept; one notice per failure |
| `App.Report` | app.py:86-110 | nothing without SQL; otherwise the SQL first, then exactly one of: the success notice followed by the table (three messages), the no-result notice for an empty table (two), or the conversion error (two), each exactly when that case holds |
| `App.ShowResult` | app.py:86-110 | the messages after the loop are the report of the SQL and the converted result |
| `App.HandleInput` | app.py:36-110 | nothing happens without input; otherwise the question, the loop's notices and the report, in that order, with the loop's final state as `RetryLoop` states |

## Left out

- Streamlit rendering (`st.chat_input`, `st.chat_message`, `st.markdown`, `st.dataframe`) becomes a list of events that carry the data each message shows. The message text, its Markdown and the chat roles are not modelled.
- The language model, `similarity_search` and `db.run` are I/O. They are parameters: functions indexed by the attempt number, returning a value or the error text raised. Which document is most similar is therefore not modelled.
- The Ollama embedding call inside `add_documents` is I/O too. It is a parameter `embed` that gives, for the documents being added, the error the call raises or None. The vectors it computes are not modelled, and whether it fails is taken to depend only on the documents.
- `DirectoryLoader`, `open` and `json.load` are file I/O. `get_vector_store` receives, in the loader's order, what `json.load` gave for each file or the error it raised.
- The module-level set-up of `app.py` (connecting to the database, `get_table_info`, `get_llm`, `get_vector_store`, the page configuration) happens once before the model begins. Its results are parameters.
- `ast.literal_eval` and the `pandas.DataFrame` constructor are parsing libraries. They are abstracted as a parameter `parse` that says whether the value is malformed, a list or something else (and whether it is truthy), and gives the table or error pandas produces.
- `PromptTemplate.from_template` and `invoke` are library code. The model keeps the template text and the values of the three placeholders. How braces in the template or in the memory are parsed is not modelled.
- `str()` of JSON values is not computed. A JSON list, object or scalar carries the text it renders as.
- Error texts such as "TypeError: …" stand for the exceptions Python raises. Only which operation raises is modelled, not the exact message.
- `Regex.Step`: `\d` is modelled as the ASCII digits only. Python's `\d` on `str` also matches the other Unicode decimal digits.
- `Regex.MatchPrefix` is the matcher for the pattern shapes the rewrites use, in which each group is followed by a literal outside its class. General backtracking and other regex syntax are not modelled.
- config.py, llm_util.py and utils/llm_util.py read configuration and choose a chat client. script.py is a command-line variant. The root rag_util.py and prompt_util.py are older copies of the files under utils/. None of these is part of this model.
- `App.Notices`: its own contract states only that there is one notice per entry. The content of each notice is stated by `App.NoticesAt` and `App.GaveUpNoticed`.
