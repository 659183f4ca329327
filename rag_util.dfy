/** `utils/rag_util.py`: indexing the example corpus, and one generation step
    (retrieve an example, fold the failure memory, fill the prompt, ask the model). */
module RagUtil {
  import opened Types
  import opened Text
  import opened PromptUtil

  // ---------------------------------------------------------------------------
  // get_vector_store

  /** A JSON value as `json.load` returns it. Lists, objects and scalars (numbers,
      booleans, null) carry the text `str()` renders them as. */
  datatype Json =
    | JString(s: string)
    | JList(items: seq<Json>, rendered: string)
    | JObject(fields: map<string, Json>, rendered: string)
    | JScalar(rendered: string)

  /** `str(value)`, as an f-string renders it. */
  function Str(j: Json): string
  {
    match j
    case JString(s) => s
    case JList(_, rendered) => rendered
    case JObject(_, rendered) => rendered
    case JScalar(rendered) => rendered
  }

  /** An indexed example: the question is the searchable content and the answer
      is kept as the `response` metadata. */
  datatype Document = Document(pageContent: string, response: Json)

  /** `key in value`: a key of an object, a substring of a string, an element of a
      list; a scalar raises `TypeError`. */
  function HasKey(value: Json, key: string): Result<bool>
  {
    match value
    case JObject(fields, _) => Ok(key in fields)
    case JString(s) => Ok(Contains(s, key))
    case JList(items, _) => Ok(JString(key) in items)
    case JScalar(_) => Err("TypeError: argument is not iterable")
  }

  /** `value[key]`: only an object can be indexed by a string key. */
  function Subscript(value: Json, key: string): Result<Json>
  {
    match value
    case JObject(fields, _) =>
      if key in fields then Ok(fields[key]) else Err("KeyError: " + key)
    case _ => Err("TypeError: indices must be integers")
  }

  /** The entries the corpus keeps: objects with both a question and a response. */
  predicate Indexable(entry: Json)
  {
    entry.JObject? && "question" in entry.fields && "response" in entry.fields
  }

  /** `add_documents` sends the documents' texts to the embedding service before
      storing them: the error that call raises, or None when it succeeds. */
  type Embed = seq<Document> -> Option<string>

  /** What one entry of a list file adds to the store: one document for an
      indexable entry whose question is text and embeds, nothing for an entry
      lacking either key; an error where Python raises. */
  function EntryDocs(embed: Embed, entry: Json): (r: Result<seq<Document>>)
    ensures r.Ok? ==> |r.value| <= 1
    ensures r == Ok([]) <==>
      (&& !entry.JScalar? && !Indexable(entry)
       && !(entry.JString? && Contains(entry.s, "question") && Contains(entry.s, "response"))
       && !(entry.JList? && JString("question") in entry.items && JString("response") in entry.items))
    ensures forall d: Document :: r == Ok([d]) <==> IndexedFrom(entry, d) && embed([d]).None?
    ensures forall d: Document :: IndexedFrom(entry, d) && embed([d]).Some? ==> r == Err(embed([d]).value)
  {
    match HasKey(entry, "question")
    case Err(e) => Err(e)
    case Ok(hasQuestion) =>
      if !hasQuestion then Ok([])
      else
        match HasKey(entry, "response")
        case Err(e) => Err(e)
        case Ok(hasResponse) =>
          if !hasResponse then Ok([])
          else
            match Subscript(entry, "question")
            case Err(e) => Err(e)
            case Ok(question) =>
              match Subscript(entry, "response")
              case Err(e) => Err(e)
              case Ok(response) =>
                if question.JString? then
                  var d := Document(question.s, response);
                  match embed([d])
                  case Some(e) => Err(e)
                  case None => Ok([d])
                else Err("ValidationError: page_content must be a string")
  }

  /** The documents `docs` yields for each item, concatenated in order; the first
      error stops the walk and is the result. */
  function Gather<T>(items: seq<T>, docs: T -> Result<seq<Document>>): Result<seq<Document>>
  {
    if items == [] then Ok([])
    else
      match Gather(items[..|items| - 1], docs)
      case Err(e) => Err(e)
      case Ok(before) =>
        match docs(items[|items| - 1])
        case Err(e) => Err(e)
        case Ok(more) => Ok(before + more)
  }

  function EntryStep(embed: Embed): Json -> Result<seq<Document>>
  {
    entry => EntryDocs(embed, entry)
  }

  /** The documents the entries of a list file add, in order. */
  function EntriesDocs(embed: Embed, entries: seq<Json>): Result<seq<Document>>
  {
    Gather(entries, EntryStep(embed))
  }

  /** What one file adds: only a file holding a JSON list contributes. A file that
      cannot be read or parsed is an error. */
  function FileDocs(embed: Embed, file: Result<Json>): Result<seq<Document>>
  {
    match file
    case Err(e) => Err(e)
    case Ok(data) => if data.JList? then EntriesDocs(embed, data.items) else Ok([])
  }

  function FileStep(embed: Embed): Result<Json> -> Result<seq<Document>>
  {
    file => FileDocs(embed, file)
  }

  /** The documents of all files, in the loader's order. */
  function Corpus(embed: Embed, files: seq<Result<Json>>): Result<seq<Document>>
  {
    Gather(files, FileStep(embed))
  }

  /** The in-memory vector store: the documents in the order they were added.
      The embedding vectors themselves are not part of this model. */
  class VectorStore {
    var documents: seq<Document>

    constructor ()
      ensures documents == []
    {
      documents := [];
    }

    /** `add_documents`: embed the documents, then store them after the ones
        already there; when embedding fails its error is raised and nothing is
        stored. */
    method AddDocuments(docs: seq<Document>, embed: Embed) returns (error: Option<string>)
      modifies this
      ensures error == embed(docs)
      ensures error.None? ==> documents == old(documents) + docs
      ensures error.Some? ==> documents == old(documents)
    {
      error := embed(docs);
      if error.None? {
        documents := documents + docs;
      }
    }
  }

  /** `get_vector_store`: read each file, and for a file holding a list add one
      document per indexable entry. `files` holds what `json.load` gave for each
      file the loader found, or the error it raised; `embed` is the embedding
      service `add_documents` calls. */
  method GetVectorStore(files: seq<Result<Json>>, embed: Embed) returns (r: Result<VectorStore>)
    ensures r.Ok? <==> Corpus(embed, files).Ok?
    ensures r.Ok? ==> fresh(r.value) && r.value.documents == Corpus(embed, files).value
    ensures r.Err? ==> r == Err(Corpus(embed, files).error)
  {
    var store := new VectorStore();
    for i := 0 to |files|
      invariant Corpus(embed, files[..i]).Ok? && store.documents == Corpus(embed, files[..i]).value
    {
      assert files[..i + 1][..i] == files[..i];
      match files[i]
      case Err(e) =>
        GatherFailsAt(files, FileStep(embed), i);
        return Err(e);
      case Ok(data) =>
        if data.JList? {
          var items := data.items;
          for j := 0 to |items|
            invariant EntriesDocs(embed, items[..j]).Ok?
            invariant store.documents == Corpus(embed, files[..i]).value + EntriesDocs(embed, items[..j]).value
          {
            assert items[..j + 1][..j] == items[..j];
            var entry := items[j];
            var hasQuestion := HasKey(entry, "question");
            if hasQuestion.Err? {
              EntryFails(embed, items, j, i, files);
              return Err(hasQuestion.error);
            }
            if hasQuestion.value && HasKey(entry, "response").value {
              var question := Subscript(entry, "question");
              if question.Err? {
                EntryFails(embed, items, j, i, files);
                return Err(question.error);
              }
              var response := Subscript(entry, "response").value;
              if !question.value.JString? {
                EntryFails(embed, items, j, i, files);
                return Err("ValidationError: page_content must be a string");
              }
              var failed := store.AddDocuments([Document(question.value.s, response)], embed);
              if failed.Some? {
                EntryFails(embed, items, j, i, files);
                return Err(failed.value);
              }
            }
          }
          assert items[..|items|] == items;
        }
    }
    assert files[..|files|] == files;
    return Ok(store);
  }

  /** Once a prefix of the items fails, the whole walk fails the same way. */
  lemma {:induction false} GatherFailFrom<T>(items: seq<T>, docs: T -> Result<seq<Document>>, n: nat)
    requires n <= |items| && Gather(items[..n], docs).Err?
    ensures Gather(items, docs) == Gather(items[..n], docs)
    decreases |items|
  {
    if n < |items| {
      var init := items[..|items| - 1];
      assert init[..n] == items[..n];
      GatherFailFrom(init, docs, n);
    } else {
      assert items[..n] == items;
    }
  }

  /** The first item whose documents are an error makes the walk fail with it. */
  lemma GatherFailsAt<T>(items: seq<T>, docs: T -> Result<seq<Document>>, j: nat)
    requires j < |items| && Gather(items[..j], docs).Ok? && docs(items[j]).Err?
    ensures Gather(items, docs) == Err(docs(items[j]).error)
  {
    var upto := items[..j + 1];
    assert upto[..j] == items[..j] && upto[j] == items[j];
    assert Gather(upto, docs) == Err(docs(items[j]).error);
    GatherFailFrom(items, docs, j + 1);
  }

  /** An entry that raises makes the whole corpus fail with its error. */
  lemma EntryFails(embed: Embed, items: seq<Json>, j: nat, i: nat, files: seq<Result<Json>>)
    requires i < |files| && files[i].Ok? && files[i].value.JList? && items == files[i].value.items
    requires j < |items| && EntriesDocs(embed, items[..j]).Ok? && EntryDocs(embed, items[j]).Err?
    requires Corpus(embed, files[..i]).Ok?
    ensures Corpus(embed, files) == Err(EntryDocs(embed, items[j]).error)
  {
    GatherFailsAt(items, EntryStep(embed), j);
    GatherFailsAt(files, FileStep(embed), i);
  }

  /** When the embedding service fails on an indexable entry's document, indexing
      stops with that error, unless something before the entry failed first. */
  lemma EmbeddingFails(embed: Embed, items: seq<Json>, j: nat, i: nat, files: seq<Result<Json>>, d: Document)
    requires i < |files| && files[i].Ok? && files[i].value.JList? && items == files[i].value.items
    requires j < |items| && EntriesDocs(embed, items[..j]).Ok? && Corpus(embed, files[..i]).Ok?
    requires IndexedFrom(items[j], d) && embed([d]).Some?
    ensures Corpus(embed, files) == Err(embed([d]).value)
  {
    EntryFails(embed, items, j, i, files);
  }

  /** `d` is the document indexable entry `e` yields. */
  predicate IndexedFrom(e: Json, d: Document)
  {
    Indexable(e) && e.fields["question"] == JString(d.pageContent) && d.response == e.fields["response"]
  }

  /** Walking two sequences one after the other: the documents of `a`, then those
      of `b`; an error in `a` wins over one in `b`. For `Corpus` this is indexing
      the files of `a` and then those of `b`. */
  lemma {:induction false} GatherAppend<T>(a: seq<T>, b: seq<T>, docs: T -> Result<seq<Document>>)
    ensures Gather(a, docs).Err? ==> Gather(a + b, docs) == Gather(a, docs)
    ensures Gather(a, docs).Ok? && Gather(b, docs).Err? ==> Gather(a + b, docs) == Gather(b, docs)
    ensures Gather(a, docs).Ok? && Gather(b, docs).Ok? ==>
      Gather(a + b, docs) == Ok(Gather(a, docs).value + Gather(b, docs).value)
    decreases |b|
  {
    if b == [] {
      assert a + b == a;
      if Gather(a, docs).Ok? {
        assert Gather(a, docs).value + [] == Gather(a, docs).value;
      }
    } else {
      var init, last := b[..|b| - 1], b[|b| - 1];
      assert (a + b)[..|a + b| - 1] == a + init;
      assert (a + b)[|a + b| - 1] == last;
      GatherAppend(a, init, docs);
      if Gather(a, docs).Ok? && Gather(init, docs).Ok? && docs(last).Ok? {
        var x, y, z := Gather(a, docs).value, Gather(init, docs).value, docs(last).value;
        assert Gather(b, docs) == Ok(y + z);
        assert Gather(a + b, docs) == Ok((x + y) + z);
        assert (x + y) + z == x + (y + z);
      }
    }
  }

  /** Every document of a list's entries comes from one of its indexable entries,
      and was embedded. */
  lemma {:induction false} EntriesSound(embed: Embed, entries: seq<Json>, d: Document)
    requires EntriesDocs(embed, entries).Ok? && d in EntriesDocs(embed, entries).value
    ensures exists e :: e in entries && IndexedFrom(e, d)
    ensures embed([d]).None?
    decreases |entries|
  {
    var init := entries[..|entries| - 1];
    var last := entries[|entries| - 1];
    if d in EntriesDocs(embed, init).value {
      EntriesSound(embed, init, d);
      var e :| e in init && IndexedFrom(e, d);
      assert e in entries;
    } else {
      assert EntryDocs(embed, last) == Ok([d]);
      assert IndexedFrom(last, d);
    }
  }

  /** Every indexed document comes from an indexable entry of a file holding a list. */
  lemma {:induction false} CorpusSound(embed: Embed, files: seq<Result<Json>>, d: Document)
    requires Corpus(embed, files).Ok? && d in Corpus(embed, files).value
    ensures exists i | 0 <= i < |files| ::
      files[i].Ok? && files[i].value.JList? && exists e :: e in files[i].value.items && IndexedFrom(e, d)
    ensures embed([d]).None?
    decreases |files|
  {
    var init := files[..|files| - 1];
    var n := |files| - 1;
    if d in Corpus(embed, init).value {
      CorpusSound(embed, init, d);
      var i :| 0 <= i < |init| &&
        init[i].Ok? && init[i].value.JList? && exists e :: e in init[i].value.items && IndexedFrom(e, d);
      assert files[i] == init[i];
    } else {
      assert d in FileDocs(embed, files[n]).value;
      EntriesSound(embed, files[n].value.items, d);
    }
  }

  /** Each indexable entry with a text question is indexed, when indexing succeeds. */
  lemma {:induction false} EntriesComplete(embed: Embed, entries: seq<Json>, j: nat)
    requires EntriesDocs(embed, entries).Ok? && j < |entries| && Indexable(entries[j])
    ensures entries[j].fields["question"].JString?
    ensures Document(entries[j].fields["question"].s, entries[j].fields["response"]) in EntriesDocs(embed, entries).value
    decreases |entries|
  {
    var init := entries[..|entries| - 1];
    if j < |entries| - 1 {
      assert init[j] == entries[j];
      EntriesComplete(embed, init, j);
    } else {
      var e := entries[j];
      assert EntryDocs(embed, e).Ok?;
      assert EntryDocs(embed, e) == Ok([Document(e.fields["question"].s, e.fields["response"])]);
    }
  }

  lemma {:induction false} CorpusComplete(embed: Embed, files: seq<Result<Json>>, i: nat, j: nat)
    requires Corpus(embed, files).Ok? && i < |files| && files[i].Ok? && files[i].value.JList?
    requires j < |files[i].value.items| && Indexable(files[i].value.items[j])
    ensures var e := files[i].value.items[j];
      e.fields["question"].JString? && Document(e.fields["question"].s, e.fields["response"]) in Corpus(embed, files).value
    decreases |files|
  {
    var init := files[..|files| - 1];
    if i < |files| - 1 {
      assert init[i] == files[i];
      CorpusComplete(embed, init, i, j);
    } else {
      EntriesComplete(embed, files[i].value.items, j);
    }
  }

  // ---------------------------------------------------------------------------
  // run_rag

  /** One failed attempt as the retry loop records it: the SQL it had (None before
      any SQL was produced) and the error text. */
  datatype MemoryItem = MemoryItem(sql: Option<string>, error: string)

  /** How an f-string shows an optional SQL text. */
  function SqlText(sql: Option<string>): string
  {
    match sql
    case None => "None"
    case Some(s) => s
  }

  const SqlLead: string := "\n                SQL： "
  const ErrorLead: string := "\n                錯誤訊息：`"
  const BlockEnd: string := "`\n            "

  /** The memory text for one failed attempt: its SQL, then its error. */
  function MemoryBlock(item: MemoryItem): string
  {
    SqlLead + SqlText(item.sql) + ErrorLead + item.error + BlockEnd
  }

  /** The texts `block` gives the items, joined in order. */
  function JoinBlocks(items: seq<MemoryItem>, block: MemoryItem -> string): string
  {
    if items == [] then ""
    else JoinBlocks(items[..|items| - 1], block) + block(items[|items| - 1])
  }

  lemma {:induction false} JoinBlocksAppend(a: seq<MemoryItem>, b: seq<MemoryItem>, block: MemoryItem -> string)
    ensures JoinBlocks(a + b, block) == JoinBlocks(a, block) + JoinBlocks(b, block)
    decreases |b|
  {
    if b == [] {
      assert a + b == a;
    } else {
      var init, last := b[..|b| - 1], b[|b| - 1];
      assert (a + b)[..|a + b| - 1] == a + init;
      assert (a + b)[|a + b| - 1] == last;
      var x, y, z := JoinBlocks(a, block), JoinBlocks(init, block), block(last);
      assert JoinBlocks(b, block) == y + z;
      assert JoinBlocks(a + b, block) == JoinBlocks(a + init, block) + z;
      JoinBlocksAppend(a, init, block);
      assert (x + y) + z == x + (y + z);
    }
  }

  /** `memory_str`: the blocks of all items, in memory order; empty exactly when
      the memory is. */
  function MemoryString(memory: seq<MemoryItem>): (r: string)
    ensures r == "" <==> memory == []
  {
    var r := JoinBlocks(memory, MemoryBlock);
    assert memory != [] ==> |r| >= |MemoryBlock(memory[|memory| - 1])| > 0;
    r
  }

  lemma MemoryStringAppend(a: seq<MemoryItem>, b: seq<MemoryItem>)
    ensures MemoryString(a + b) == MemoryString(a) + MemoryString(b)
  {
    JoinBlocksAppend(a, b, MemoryBlock);
  }

  /** Item `i` shows up whole, after the items before it and before the ones after it. */
  lemma MemoryStringAt(memory: seq<MemoryItem>, i: nat)
    requires i < |memory|
    ensures MemoryString(memory)
         == MemoryString(memory[..i]) + MemoryBlock(memory[i]) + MemoryString(memory[i + 1..])
  {
    var upto := memory[..i + 1];
    assert upto[..i] == memory[..i] && upto[i] == memory[i];
    assert MemoryString(upto) == MemoryString(memory[..i]) + MemoryBlock(memory[i]);
    assert memory == upto + memory[i + 1..];
    MemoryStringAppend(upto, memory[i + 1..]);
  }

  /** `best_match`: the most similar document, if any was retrieved. */
  function BestMatch(retrieved: seq<Document>): (r: Option<Document>)
    ensures r.None? <==> retrieved == []
    ensures r.Some? ==> r.value == retrieved[0]
  {
    if retrieved != [] then Some(retrieved[0]) else None
  }

  /** The example text for a match: its question, then its stored response. */
  function ExampleText(doc: Document): string
  {
    "\n        問題:`" + doc.pageContent + "`\n        回答: `" + Str(doc.response) + "`\n    "
  }

  /** `example`: present exactly when a document was retrieved, and never empty then. */
  function Example(retrieved: seq<Document>): (r: Option<string>)
    ensures r.None? <==> retrieved == []
    ensures r.Some? ==> r.value == ExampleText(retrieved[0]) && r.value != ""
  {
    match BestMatch(retrieved)
    case None => None
    case Some(d) => Some(ExampleText(d))
  }

  /** The example holds the match's question and its response, in that order. */
  lemma ExampleShowsMatch(d: Document)
    ensures var text := ExampleText(d);
      var q := |"\n        問題:`"|;
      && text[q..q + |d.pageContent|] == d.pageContent
      && var r := q + |d.pageContent| + |"`\n        回答: `"|;
         text[r..r + |Str(d.response)|] == Str(d.response)
  {
  }

  /** `prompt.invoke(...)`: what the prompt template is built from, and the
      values its placeholders are filled with. */
  datatype PromptCall = PromptCall(example: Option<string>, memory: string, input: string, tableInfo: string, topK: nat)
  {
    /** The template text `get_sql_prompt` builds for this call. */
    function Template(): string
    {
      GetSqlPrompt(example, Some(memory))
    }
  }

  /** `top_k` is always 20. */
  const TopK: nat := 20

  /** The call a generation step makes: the example is there exactly when
      something was retrieved, the memory text is empty exactly when there were
      no earlier failures, and the placeholders get the caller's question and
      table description, and 20 for `top_k`. */
  function Call(retrieved: seq<Document>, userInput: string, tableInfo: string, memory: seq<MemoryItem>): (call: PromptCall)
    ensures call.example.None? <==> retrieved == []
    ensures call.memory == "" <==> memory == []
    ensures call.input == userInput && call.tableInfo == tableInfo && call.topK == 20
  {
    PromptCall(Example(retrieved), MemoryString(memory), userInput, tableInfo, TopK)
  }

  /** The template of that call: the example section is there exactly when
      something was retrieved; the memory section exactly when there were
      earlier failures, and after it. */
  lemma CallTemplateSections(retrieved: seq<Document>, userInput: string, tableInfo: string, memory: seq<MemoryItem>)
    ensures var prompt := Call(retrieved, userInput, tableInfo, memory).Template();
      StartsWith(prompt[|BaseTemplate|..], ExampleHeader) <==> retrieved != []
    ensures var prompt := Call(retrieved, userInput, tableInfo, memory).Template();
      memory == [] ==> prompt == BaseTemplate + ExampleSection(Example(retrieved))
    ensures var prompt := Call(retrieved, userInput, tableInfo, memory).Template();
      memory != [] ==>
        prompt == BaseTemplate + ExampleSection(Example(retrieved)) + Section(MemoryHeader, MemoryString(memory))
  {
    var example := Example(retrieved);
    var memoryText := Some(MemoryString(memory));
    assert Present(example) <==> retrieved != [];
    assert Present(memoryText) <==> memory != [];
    if !Present(example) {
      assert ExampleSection(example) == "";
      assert BaseTemplate + "" == BaseTemplate;
    }
  }

  /** `vector_store.similarity_search(query)` over the store's documents. */
  type Search = (seq<Document>, string) -> Result<seq<Document>>

  /** `llm.invoke(prompt.invoke(...))`: the model's answer, or the error raised. */
  type Llm = PromptCall -> Result<string>

  /** One generation step: retrieve, build the prompt, and ask the model once. */
  function GenerateSql(search: Search, llm: Llm, corpus: seq<Document>, userInput: string,
                       tableInfo: string, memory: seq<MemoryItem>): Result<string>
  {
    match search(corpus, userInput)
    case Err(e) => Err(e)
    case Ok(retrieved) => llm(Call(retrieved, userInput, tableInfo, memory))
  }

  /** `run_rag`: the store and the memory are only read. */
  method RunRag(search: Search, llm: Llm, store: VectorStore, userInput: string,
                tableInfo: string, memory: seq<MemoryItem>) returns (r: Result<string>)
    ensures r == GenerateSql(search, llm, store.documents, userInput, tableInfo, memory)
  {
    var retrieved := search(store.documents, userInput);
    if retrieved.Err? {
      return Err(retrieved.error);
    }
    var docs := retrieved.value;
    var bestMatch: Option<Document> := None;
    if docs != [] {
      bestMatch := Some(docs[0]);
    }
    var example := if bestMatch.Some? then Some(ExampleText(bestMatch.value)) else None;
    var memoryStr := "";
    if memory != [] {
      for i := 0 to |memory|
        invariant memoryStr == MemoryString(memory[..i])
      {
        assert memory[..i + 1][..i] == memory[..i];
        memoryStr := memoryStr + MemoryBlock(memory[i]);
      }
      assert memory[..|memory|] == memory;
    }
    r := llm(PromptCall(example, memoryStr, userInput, tableInfo, TopK));
  }
}
