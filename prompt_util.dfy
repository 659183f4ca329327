/** `utils/prompt_util.py`: the prompt template the SQL chain is invoked with. */
module PromptUtil {
  import opened Types
  import opened Text

  /** The fixed part of the template: the generator's instructions, the three
      placeholders and the SQL rules. */
  const BaseTemplate: string := TemplateIntro + TemplateInputs + TemplateRules

  const TemplateIntro: string :=
    "\n"
    + "        你是一個 SQL 生成器，請基於以下資訊生成一個 SQL 查詢：\n"
    + "        \n"

  /** The `{table_info}`, `{input}` and `{top_k}` placeholders the chain fills in. */
  const TemplateInputs: string := TableLine + QuestionLine + TopKLine

  const TableLine: string := "        - 資料表格式: " + "{table_info}" + "\n"
  const QuestionLine: string := "        - 使用者的問題: " + "{input}" + "\n"
  const TopKLine: string := "        - 每次獲取資料數量: " + "{top_k}" + "\n"

  const TemplateRules: string :=
    "\n"
    + "        請輸出完整的 SQL 查詢，不要包含任何解釋文字，並符合下面規則。\n"
    + "\n"
    + "        ### 1. SQL 語法規則  \n"
    + "\n"
    + "        - **表格名稱必須加上雙引號**  \n"
    + "        - **欄位名稱不可使用任何符號**  \n"
    + "        - 範例：`SELECT 名稱 FROM \"table_name\"`  \n"
    + "\n"
    + "        - **聚合函數必須加括號**  \n"
    + "        - 範例：`SELECT MIN(日期) FROM \"table_name\"`  \n"
    + "\n"
    + "        ### 2. `GROUP BY` 使用規則  \n"
    + "\n"
    + "        - **當問題涉及「最高」「最低」「平均」「總和」時，一定要 `GROUP BY`**  \n"
    + "        - **當問題要求「每個對象」、「每個類別」、「每個項目」時，一定要 `GROUP BY`**  \n"
    + "        - 範例：`SELECT 類別, AVG(數值) FROM \"table_name\" GROUP BY 類別`  \n"
    + "\n"
    + "        - **選擇正確的 `GROUP BY` 屬性**  \n"
    + "        - 若問題涉及某項目（如：「哪個項目的值最高？」）➡ `GROUP BY 項目名稱`  \n"
    + "        - 若問題涉及某類別（如：「哪個類別的平均值最高？」）➡ `GROUP BY 類別名稱`  \n"
    + "        - 若問題未明確說明，預設使用 `GROUP BY 項目名稱`  \n"
    + "        - **`SELECT` 中必須包含 `GROUP BY` 的欄位**  \n"
    + "        - 範例：`SELECT 類別, MAX(數值) FROM \"table_name\" GROUP BY 類別`  \n"
    + "\n"
    + "        "

  lemma ContainedIn(a: string, x: string, b: string, p: string)
    requires Contains(x, p)
    ensures Contains(a + x + b, p)
  {
    var k :| 0 <= k <= |x| && StartsWith(x[k..], p);
    assert (a + x + b)[|a| + k..][..|p|] == x[k..][..|p|];
    assert StartsWith((a + x + b)[|a| + k..], p);
  }

  lemma ContainsItself(p: string)
    ensures Contains(p, p)
  {
    assert StartsWith(p[0..], p);
  }

  lemma InputsPlaceholders()
    ensures Contains(TemplateInputs, "{table_info}")
    ensures Contains(TemplateInputs, "{input}")
    ensures Contains(TemplateInputs, "{top_k}")
  {
    ContainsItself("{table_info}");
    ContainsItself("{input}");
    ContainsItself("{top_k}");
    ContainedIn("        - 資料表格式: ", "{table_info}", "\n", "{table_info}");
    ContainedIn("        - 使用者的問題: ", "{input}", "\n", "{input}");
    ContainedIn("        - 每次獲取資料數量: ", "{top_k}", "\n", "{top_k}");
    assert TemplateInputs == [] + TableLine + (QuestionLine + TopKLine);
    assert TemplateInputs == TableLine + QuestionLine + TopKLine + [];
    ContainedIn([], TableLine, QuestionLine + TopKLine, "{table_info}");
    ContainedIn(TableLine, QuestionLine, TopKLine, "{input}");
    ContainedIn(TableLine + QuestionLine, TopKLine, [], "{top_k}");
  }

  /** The base template holds the three placeholders the chain fills in. */
  lemma BasePlaceholders()
    ensures Contains(BaseTemplate, "{table_info}")
    ensures Contains(BaseTemplate, "{input}")
    ensures Contains(BaseTemplate, "{top_k}")
  {
    InputsPlaceholders();
    ContainedIn(TemplateIntro, TemplateInputs, TemplateRules, "{table_info}");
    ContainedIn(TemplateIntro, TemplateInputs, TemplateRules, "{input}");
    ContainedIn(TemplateIntro, TemplateInputs, TemplateRules, "{top_k}");
  }

  /** Opens the section holding the retrieved example question and answer. */
  const ExampleHeader: string := "\n\n        以下是檢索出最相關的範例問答：\n            "

  /** Opens the section holding the earlier attempts and their errors. */
  const MemoryHeader: string := "\n\n        以下是目前為止的嘗試及錯誤訊息：\n            "

  /** Closes either section. */
  const SectionEnd: string := "\n        "

  function Section(header: string, body: string): string
  {
    header + body + SectionEnd
  }

  /** `x is not None and x != ""` */
  predicate Present(x: Option<string>)
  {
    x.Some? && x.value != ""
  }

  /** The example section, when there is an example. */
  function ExampleSection(example: Option<string>): string
  {
    if Present(example) then Section(ExampleHeader, example.value) else ""
  }

  /** The memory section, when there is a memory. */
  function MemorySection(memory: Option<string>): string
  {
    if Present(memory) then Section(MemoryHeader, memory.value) else ""
  }

  /** A section, and whatever follows it, opens with its header. */
  lemma SectionOpens(header: string, body: string, rest: string)
    ensures StartsWith(Section(header, body) + rest, header)
  {
    assert (Section(header, body) + rest)[..|header|] == header;
  }

  /** A memory section does not open with the example header. */
  lemma MemoryNotExample(body: string)
    ensures !StartsWith(Section(MemoryHeader, body) + "", ExampleHeader)
  {
    var tail := Section(MemoryHeader, body) + "";
    SectionOpens(MemoryHeader, body, "");
    StartsWithAt(tail, MemoryHeader, 13);
    StartsWithAt(tail, ExampleHeader, 13);
    assert MemoryHeader[13] == '目' && ExampleHeader[13] == '檢';
  }

  /** The two headers part at their fourth character of text, so what follows the
      base template opens with the example header only when an example is there. */
  lemma ExampleHeaderOnlyWithExample(example: Option<string>, memory: Option<string>)
    ensures Present(example) <==> StartsWith(ExampleSection(example) + MemorySection(memory), ExampleHeader)
  {
    var tail := ExampleSection(example) + MemorySection(memory);
    if Present(example) {
      SectionOpens(ExampleHeader, example.value, MemorySection(memory));
    } else if Present(memory) {
      assert tail == Section(MemoryHeader, memory.value) + "";
      MemoryNotExample(memory.value);
    } else {
      assert tail == [];
    }
  }

  lemma AppendedAfter(base: string, x: string, y: string)
    ensures StartsWith(base + x + y, base) && (base + x + y)[|base|..] == x + y
  {
    assert (base + x + y)[..|base|] == base;
  }

  /** The shape of a prompt made of any fixed part followed by the two optional sections. */
  lemma PromptShape(base: string, example: Option<string>, memory: Option<string>)
    ensures var r := base + ExampleSection(example) + MemorySection(memory);
      && StartsWith(r, base)
      && (Present(example) <==> StartsWith(r[|base|..], ExampleHeader))
      && (!Present(example) && !Present(memory) ==> r == base)
      && (!Present(example) && Present(memory) ==> r == base + Section(MemoryHeader, memory.value))
      && (Present(example) && !Present(memory) ==> r == base + Section(ExampleHeader, example.value))
      && (Present(example) && Present(memory) ==>
            r == base + Section(ExampleHeader, example.value) + Section(MemoryHeader, memory.value))
  {
    var x, y := ExampleSection(example), MemorySection(memory);
    AppendedAfter(base, x, y);
    ExampleHeaderOnlyWithExample(example, memory);
    assert base + "" + "" == base;
    assert base + x + "" == base + x;
    assert base + "" + y == base + y;
  }

  /** `get_sql_prompt`: the base template, then the example section when there is
      an example, then the memory section when there is a memory. */
  function GetSqlPrompt(example: Option<string>, memory: Option<string>): (r: string)
    ensures StartsWith(r, BaseTemplate)
    ensures Present(example) <==> StartsWith(r[|BaseTemplate|..], ExampleHeader)
    ensures !Present(example) && !Present(memory) ==> r == BaseTemplate
    ensures !Present(example) && Present(memory) ==> r == BaseTemplate + Section(MemoryHeader, memory.value)
    ensures Present(example) && !Present(memory) ==> r == BaseTemplate + Section(ExampleHeader, example.value)
    ensures Present(example) && Present(memory) ==>
      r == BaseTemplate + Section(ExampleHeader, example.value) + Section(MemoryHeader, memory.value)
  {
    PromptShape(BaseTemplate, example, memory);
    BaseTemplate + ExampleSection(example) + MemorySection(memory)
  }
}
