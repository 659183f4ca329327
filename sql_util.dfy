/** `sql_util.py`: cleaning the model's answer into SQL text, and turning the
    database's textual result into a table. */
module SqlUtil {
  import opened Types
  import opened Text
  import opened Regex

  // ---------------------------------------------------------------------------
  // clean_sql_response

  /** The label the SQL chain prefixes its answer with. */
  const Label: string := "SQLQuery:"

  /** The opening fence of a Markdown SQL block. */
  const SqlFence: string := "```sql"

  /** `re.sub(r"^SQLQuery:\s*", "", s)`: `^` anchors at the start of the string
      only, so the label and the whitespace after it go at most once. */
  function StripLabel(s: string): string
  {
    if StartsWith(s, Label) then TrimStart(s[|Label|..]) else s
  }

  /** `clean_sql_response`: drop a leading label and trim, delete every "```sql"
      and then every "```" wherever they occur, and trim again. */
  function CleanSqlResponse(raw: string): (sql: string)
    ensures Trimmed(sql)
    ensures !Contains(sql, Fence)
  {
    var unlabeled := Strip(StripLabel(raw));
    var unfenced := ReplaceAll(ReplaceAll(unlabeled, SqlFence, ""), Fence, "");
    FenceRemovalComplete(ReplaceAll(unlabeled, SqlFence, ""));
    StripKeepsAbsent(unfenced, Fence);
    Strip(unfenced)
  }

  lemma NoBacktickNoFence(s: string)
    requires '`' !in s
    ensures ReplaceAll(s, SqlFence, "") == s && ReplaceAll(s, Fence, "") == s
  {
    ContainsFirstChar(s, SqlFence);
    ContainsFirstChar(s, Fence);
    ReplaceAllAbsent(s, SqlFence, "");
    ReplaceAllAbsent(s, Fence, "");
  }

  /** SQL that is already bare passes through unchanged. */
  lemma CleanKeepsBareSql(q: string)
    requires Trimmed(q) && '`' !in q && !StartsWith(q, Label)
    ensures CleanSqlResponse(q) == q
  {
    assert StripLabel(q) == q;
    StripTrimmed(q);
    NoBacktickNoFence(q);
  }

  /** A labelled answer loses the label and the whitespace after it. */
  lemma CleanRemovesLabel(ws: string, q: string)
    requires AllSpace(ws) && Trimmed(q) && '`' !in q
    ensures CleanSqlResponse(Label + ws + q) == q
  {
    var raw := Label + ws + q;
    assert StartsWith(raw, Label);
    assert raw[|Label|..] == ws + q;
    TrimStartPadded(ws, q);
    assert StripLabel(raw) == q;
    StripTrimmed(q);
    NoBacktickNoFence(q);
  }

  /** An answer wrapped in a Markdown SQL block loses the block, whatever
      whitespace surrounds the SQL inside it. */
  lemma CleanUnwrapsFence(ws1: string, q: string, ws2: string)
    requires AllSpace(ws1) && AllSpace(ws2) && Trimmed(q) && '`' !in q
    ensures CleanSqlResponse(SqlFence + ws1 + q + ws2 + Fence) == q
  {
    var inner := ws1 + q + ws2;
    var raw := SqlFence + inner + Fence;
    assert SqlFence + ws1 + q + ws2 + Fence == raw;
    assert !IsSpace('`');
    assert '`' !in inner;
    FencedBlockUnlabeled(inner);
    var unlabeled := Strip(StripLabel(raw));
    UnfenceBlock(inner);
    var unfenced := ReplaceAll(ReplaceAll(unlabeled, SqlFence, ""), Fence, "");
    assert unfenced == inner;
    StripPadded(ws1, q, ws2);
    assert CleanSqlResponse(raw) == Strip(unfenced);
  }

  /** A fenced block has no label to strip and no outer whitespace to trim. */
  lemma FencedBlockUnlabeled(inner: string)
    ensures Strip(StripLabel(SqlFence + inner + Fence)) == SqlFence + inner + Fence
  {
    var raw := SqlFence + inner + Fence;
    StartsWithAt(raw, Label, 0);
    assert raw[0] == '`' != Label[0];
    assert StripLabel(raw) == raw;
    assert raw[|raw| - 1] == '`';
    StripTrimmed(raw);
  }

  lemma UnfenceBlock(inner: string)
    requires '`' !in inner
    ensures ReplaceAll(ReplaceAll(SqlFence + inner + Fence, SqlFence, ""), Fence, "") == inner
  {
    var raw := SqlFence + inner + Fence;
    assert raw[..|SqlFence|] == SqlFence;
    assert raw[|SqlFence|..] == inner + Fence;
    ReplaceAllSkips(inner, Fence, SqlFence, "");
    assert ReplaceAll(Fence, SqlFence, "") == Fence;
    assert ReplaceAll(raw, SqlFence, "") == inner + Fence;
    ReplaceAllSkips(inner, Fence, Fence, "");
    assert Fence[..|Fence|] == Fence;
    assert ReplaceAll(Fence, Fence, "") == "" + ReplaceAll([], Fence, "") == "";
    assert inner + "" == inner;
  }

  /** The label is only recognised at the very start: inside a fence it stays. */
  lemma CleanKeepsLabelInsideFence(q: string)
    requires q != [] && Trimmed(q) && '`' !in q
    ensures CleanSqlResponse(SqlFence + "\n" + Label + " " + q + "\n" + Fence) == Label + " " + q
  {
    var labelled := Label + " " + q;
    assert labelled[|labelled| - 1] == q[|q| - 1];
    assert '`' !in labelled by { assert labelled == Label + " " + q; }
    assert SqlFence + "\n" + Label + " " + q + "\n" + Fence == SqlFence + "\n" + labelled + "\n" + Fence;
    assert AllSpace("\n");
    CleanUnwrapsFence("\n", labelled, "\n");
  }

  /** Cleaning twice can differ from cleaning once: only one label goes per call. */
  lemma CleanIsNotIdempotent(q: string)
    requires q != [] && Trimmed(q) && '`' !in q
    ensures CleanSqlResponse(Label + " " + Label + " " + q) == Label + " " + q
    ensures CleanSqlResponse(CleanSqlResponse(Label + " " + Label + " " + q)) == q
    ensures CleanSqlResponse(CleanSqlResponse(Label + " " + Label + " " + q))
         != CleanSqlResponse(Label + " " + Label + " " + q)
  {
    var once := Label + " " + q;
    assert once[|once| - 1] == q[|q| - 1];
    assert '`' !in once by { assert once == Label + " " + q; }
    assert AllSpace(" ");
    assert Label + " " + Label + " " + q == Label + " " + once;
    CleanRemovesLabel(" ", once);
    CleanRemovesLabel(" ", q);
    assert |once| > |q|;
  }

  // ---------------------------------------------------------------------------
  // convert_result_to_df: the literal rewrites

  /** `Decimal\('([\d\.]+)'\)` -> `\1` */
  const DecimalPattern: Pattern := [Str("Decimal('"), Group(DigitOrDot, 1, None), Str("')")]
  const DecimalTemplate: Template := [Ref(0)]

  /** `n` repetitions of `, (\d{1,2})`. */
  function FieldPattern(n: nat): Pattern
  {
    if n == 0 then [] else [Str(", "), Group(Digit, 1, Some(2))] + FieldPattern(n - 1)
  }

  /** `opening(\d{4})` followed by `n` fields and the closing `tail`: the shape
      of the three date patterns. */
  function DatedPattern(opening: string, n: nat, tail: Pattern): Pattern
  {
    [Str(opening), Group(Digit, 4, Some(4))] + (FieldPattern(n) + tail)
  }

  /** `datetime\.date\((\d{4}), (\d{1,2}), (\d{1,2})\)` */
  const DatePattern: Pattern := DatedPattern("datetime.date(", 2, [Str(")")])

  /** The tail the two datetime patterns share: `, tzinfo=datetime.timezone.utc\)`,
      whose two dots are unescaped and so match any character but a newline. */
  const UtcTail: Pattern := [Str(", tzinfo=datetime"), AnyChar, Str("timezone"), AnyChar, Str("utc)")]

  /** `datetime\.datetime\((\d{4})` and five fields: with seconds. */
  const DateTime6Pattern: Pattern := DatedPattern("datetime.datetime(", 5, UtcTail)

  /** The same with four fields: without seconds. */
  const DateTime5Pattern: Pattern := DatedPattern("datetime.datetime(", 4, UtcTail)

  /** `"\1-\2-\3` */
  const DayTemplate: Template := [Text("\""), Ref(0), Text("-"), Ref(1), Text("-"), Ref(2)]
  /** `"\1-\2-\3"` */
  const DateTemplate: Template := DayTemplate + [Text("\"")]
  /** `"\1-\2-\3 \4:\5:\6"` */
  const DateTime6Template: Template :=
    DayTemplate + [Text(" "), Ref(3), Text(":"), Ref(4), Text(":"), Ref(5), Text("\"")]
  /** `"\1-\2-\3 \4:\5:00"` */
  const DateTime5Template: Template :=
    DayTemplate + [Text(" "), Ref(3), Text(":"), Ref(4), Text(":00\"")]

  lemma DecimalWellFormed()
    ensures Anchored(DecimalPattern) && Separated(DecimalPattern)
    ensures ValidTemplate(DecimalTemplate, GroupCount(DecimalPattern))
  {
    assert GroupCount(DecimalPattern[2..]) == 0;
    assert GroupCount(DecimalPattern[1..]) == 1;
  }

  lemma {:induction false} FieldPatternWellFormed(n: nat, tail: Pattern)
    requires Separated(tail) && tail != [] && tail[0].Str? && tail[0].text != []
    requires !InClass(Digit, tail[0].text[0])
    ensures Separated(FieldPattern(n) + tail)
    ensures GroupCount(FieldPattern(n)) == n
    ensures FieldPattern(n) + tail != [] && (FieldPattern(n) + tail)[0].Str?
    ensures (FieldPattern(n) + tail)[0].text != [] && !InClass(Digit, (FieldPattern(n) + tail)[0].text[0])
  {
    if n == 0 {
      assert FieldPattern(n) + tail == tail;
    } else {
      var rest := FieldPattern(n - 1) + tail;
      FieldPatternWellFormed(n - 1, tail);
      assert [Str(", "), Group(Digit, 1, Some(2))] == [Str(", ")] + [Group(Digit, 1, Some(2))];
      Regroup([Str(", ")], [Group(Digit, 1, Some(2))], FieldPattern(n - 1), tail);
      SeparatedPrepend(Group(Digit, 1, Some(2)), rest);
      SeparatedPrepend(Str(", "), [Group(Digit, 1, Some(2))] + rest);
      GroupCountAppend([Str(", "), Group(Digit, 1, Some(2))], FieldPattern(n - 1));
      assert GroupCount([Str(", "), Group(Digit, 1, Some(2))]) == 1;
    }
  }

  /** A dated pattern opens with literal text, never lets a group run into the
      next one, and captures the year and the `n` fields. */
  lemma DatedWellFormed(opening: string, n: nat, tail: Pattern)
    requires opening != []
    requires Separated(tail) && tail != [] && tail[0].Str? && tail[0].text != []
    requires !InClass(Digit, tail[0].text[0]) && GroupCount(tail) == 0
    ensures Anchored(DatedPattern(opening, n, tail)) && Separated(DatedPattern(opening, n, tail))
    ensures GroupCount(DatedPattern(opening, n, tail)) == n + 1
  {
    var rest := FieldPattern(n) + tail;
    FieldPatternWellFormed(n, tail);
    assert DatedPattern(opening, n, tail) == [Str(opening)] + ([Group(Digit, 4, Some(4))] + rest);
    SeparatedPrepend(Group(Digit, 4, Some(4)), rest);
    SeparatedPrepend(Str(opening), [Group(Digit, 4, Some(4))] + rest);
    GroupCountAppend(FieldPattern(n), tail);
    GroupCountAppend([Str(opening), Group(Digit, 4, Some(4))], rest);
    assert GroupCount([Str(opening), Group(Digit, 4, Some(4))]) == 1;
  }

  lemma UtcTailWellFormed()
    ensures Separated(UtcTail) && GroupCount(UtcTail) == 0
    ensures UtcTail[0].Str? && UtcTail[0].text != [] && !InClass(Digit, UtcTail[0].text[0])
  {
    assert GroupCount(UtcTail[4..]) == 0;
    assert GroupCount(UtcTail[3..]) == 0;
    assert GroupCount(UtcTail[2..]) == 0;
    assert GroupCount(UtcTail[1..]) == 0;
  }

  lemma DayTemplateValid()
    ensures ValidTemplate(DayTemplate, 3)
  {
  }

  lemma DateWellFormed()
    ensures Anchored(DatePattern) && Separated(DatePattern)
    ensures ValidTemplate(DateTemplate, GroupCount(DatePattern))
  {
    assert GroupCount([Str(")")]) == 0;
    DatedWellFormed("datetime.date(", 2, [Str(")")]);
    DayTemplateValid();
    ValidTemplateAppend(DayTemplate, [Text("\"")], 3);
  }

  lemma DateTime6WellFormed()
    ensures Anchored(DateTime6Pattern) && Separated(DateTime6Pattern)
    ensures ValidTemplate(DateTime6Template, GroupCount(DateTime6Pattern))
  {
    UtcTailWellFormed();
    DatedWellFormed("datetime.datetime(", 5, UtcTail);
    DayTemplateValid();
    ValidTemplateAppend(DayTemplate, [Text(" "), Ref(3), Text(":"), Ref(4), Text(":"), Ref(5), Text("\"")], 6);
  }

  lemma DateTime5WellFormed()
    ensures Anchored(DateTime5Pattern) && Separated(DateTime5Pattern)
    ensures ValidTemplate(DateTime5Template, GroupCount(DateTime5Pattern))
  {
    UtcTailWellFormed();
    DatedWellFormed("datetime.datetime(", 4, UtcTail);
    DayTemplateValid();
    ValidTemplateAppend(DayTemplate, [Text(" "), Ref(3), Text(":"), Ref(4), Text(":00\"")], 5);
  }

  /** Each rewrite is one `re.sub` call of `convert_result_to_df`. */
  function RewriteDecimals(s: string): string
  {
    DecimalWellFormed();
    Sub(DecimalPattern, DecimalTemplate, s)
  }

  function RewriteDates(s: string): string
  {
    DateWellFormed();
    Sub(DatePattern, DateTemplate, s)
  }

  function RewriteDateTimes6(s: string): string
  {
    DateTime6WellFormed();
    Sub(DateTime6Pattern, DateTime6Template, s)
  }

  function RewriteDateTimes5(s: string): string
  {
    DateTime5WellFormed();
    Sub(DateTime5Pattern, DateTime5Template, s)
  }

  /** The four substitutions, in the order the source applies them. */
  function RewriteLiterals(s: string): string
  {
    RewriteDateTimes5(RewriteDateTimes6(RewriteDates(RewriteDecimals(s))))
  }

  // ---------------------------------------------------------------------------
  // What the rewrites do to the literals `repr` writes

  /** `Decimal('d')` */
  function DecimalLiteral(digits: string): string
  {
    "Decimal('" + digits + "')"
  }

  /** `, f` for each field `f`, the way `repr` separates constructor arguments. */
  function Fields(fs: seq<string>): string
  {
    if fs == [] then "" else ", " + fs[0] + Fields(fs[1..])
  }

  /** `datetime.date(Y, M, D)` */
  function DateLiteral(y: string, m: string, d: string): string
  {
    "datetime.date(" + y + (Fields([m, d]) + ")")
  }

  /** `, tzinfo=datetime.timezone.utc)` */
  const UtcSuffix: string := ", tzinfo=datetime" + ("." + ("timezone" + ("." + "utc)")))

  /** `datetime.datetime(Y, M, D, h, m[, s], tzinfo=datetime.timezone.utc)`: Python
      leaves the seconds out when they and the microseconds are zero. */
  function DateTimeLiteral(y: string, fields: seq<string>): string
  {
    "datetime.datetime(" + y + (Fields(fields) + UtcSuffix)
  }

  /** Digits as `\d{lo,hi}` accepts them. */
  predicate DigitsBetween(s: string, lo: nat, hi: nat)
  {
    lo <= |s| <= hi && AllIn(Digit, s)
  }

  lemma DecimalFits(digits: string)
    requires digits != [] && AllIn(DigitOrDot, digits)
    ensures Fits(DecimalPattern, DecimalLiteral(digits), [digits])
  {
    var p := DecimalPattern;
    FitsEnd();
    assert p[3..] == [];
    FitsStr(p[2..], "", []);
    assert "')" + "" == "')";
    assert p[1..][1..] == p[2..];
    FitsGroup(p[1..], digits, "')", []);
    FitsStr(p, digits + "')", [digits]);
    assert "Decimal('" + (digits + "')") == DecimalLiteral(digits);
  }

  lemma DecimalExpands(digits: string)
    ensures Expand(DecimalTemplate, [digits]) == digits
  {
    assert DecimalTemplate[1..] == [];
    assert Expand(DecimalTemplate, [digits]) == digits + "";
  }

  /** `Decimal('d')` with `d` made of digits and dots becomes `d`; the text after it
      is rewritten on its own. */
  lemma DecimalRewritten(digits: string, v: string)
    requires digits != [] && AllIn(DigitOrDot, digits)
    ensures RewriteDecimals(DecimalLiteral(digits) + v) == digits + RewriteDecimals(v)
  {
    DecimalWellFormed();
    DecimalFits(digits);
    SubReplaces(DecimalPattern, DecimalTemplate, DecimalLiteral(digits), [digits], v);
    DecimalExpands(digits);
  }

  /** The digits of a `Decimal` are not a plain number: the run of digits and dots
      at their front is empty, or it is followed by something other than the
      closing quote (a sign, an exponent, `NaN`, `Infinity`, ...). */
  predicate NotPlainDecimal(x: string)
  {
    var n := Run(DigitOrDot, x);
    n == 0 || (n < |x| && x[n] != '\'')
  }

  /** The pattern does not match at a `Decimal` whose digits are not plain. */
  lemma DecimalNoMatch(x: string, v: string)
    requires NotPlainDecimal(x)
    ensures MatchPrefix(DecimalPattern, DecimalLiteral(x) + v).None?
  {
    var n := Run(DigitOrDot, x);
    var g := x[..n];
    var w := x[n..] + ("')" + v);
    assert x == g + x[n..];
    Assoc(g, x[n..], "')" + v);
    Regroup("Decimal('", x, "')", v);
    assert !InClass(DigitOrDot, w[0]) by {
      if n == |x| {
        assert w == "')" + v;
      } else {
        assert w[0] == x[n];
      }
    }
    assert DecimalLiteral(x) + v == "Decimal('" + (g + w);
    assert DecimalPattern == [Str("Decimal('"), Group(DigitOrDot, 1, None)] + [Str("')")];
    StrGroupMatch("Decimal('", DigitOrDot, 1, None, [Str("')")], g, w);
    if n > 0 {
      assert w[0] == x[n];
      StrMismatch([Str("')")], w, 0);
    }
  }

  /** Behind its first character, a literal whose digits hold no `D` holds no `D`. */
  lemma DecimalTailWithoutD(x: string)
    requires 'D' !in x
    ensures 'D' !in DecimalLiteral(x)[1..]
  {
    assert DecimalLiteral(x)[1..] == "ecimal('" + x + "')";
  }

  /** A `Decimal` whose digits are not plain is copied as it is, and the text
      after it is rewritten on its own. */
  lemma DecimalKept(x: string, v: string)
    requires 'D' !in x && NotPlainDecimal(x)
    ensures RewriteDecimals(DecimalLiteral(x) + v) == DecimalLiteral(x) + RewriteDecimals(v)
  {
    DecimalWellFormed();
    var lit := DecimalLiteral(x);
    DecimalNoMatch(x, v);
    DecimalTailWithoutD(x);
    assert lit == "D" + lit[1..];
    ConsAppend('D', lit[1..], v);
    SubSkips(DecimalPattern, DecimalTemplate, 'D', lit[1..] + v);
    SubCopies(DecimalPattern, DecimalTemplate, lit[1..], v);
    ConsAppend('D', lit[1..], Sub(DecimalPattern, DecimalTemplate, v));
  }

  /** A negative `Decimal` is not rewritten: the class has no minus sign. */
  lemma NegativeDecimalKept(digits: string)
    requires 'D' !in digits
    ensures RewriteDecimals(DecimalLiteral("-" + digits)) == DecimalLiteral("-" + digits)
  {
    var x := "-" + digits;
    assert x[0] == '-';
    assert 'D' !in x by { assert x == ['-'] + digits; }
    DecimalKept(x, "");
    assert DecimalLiteral(x) + "" == DecimalLiteral(x);
  }

  /** A `Decimal` in exponent notation (`Decimal('1E-10')`) is not rewritten. */
  lemma ExponentDecimalKept(mantissa: string, exponent: string, v: string)
    requires mantissa != [] && AllIn(DigitOrDot, mantissa) && 'D' !in exponent
    ensures var x := mantissa + "E" + exponent;
      RewriteDecimals(DecimalLiteral(x) + v) == DecimalLiteral(x) + RewriteDecimals(v)
  {
    var x := mantissa + "E" + exponent;
    assert x == mantissa + ("E" + exponent);
    RunStops(DigitOrDot, mantissa, "E" + exponent);
    assert x[|mantissa|] == 'E';
    assert 'D' !in mantissa by {
      assert forall i | 0 <= i < |mantissa| :: InClass(DigitOrDot, mantissa[i]);
    }
    assert 'D' !in x;
    DecimalKept(x, v);
  }

  /** A pattern made of one literal fits exactly that literal. */
  lemma LastFits(p: Pattern)
    requires |p| == 1 && p[0].Str?
    ensures Fits(p, p[0].text, [])
  {
    FitsEnd();
    assert p[1..] == [];
    FitsStr(p, "", []);
    assert p[0].text + "" == p[0].text;
  }

  /** `n` fields, then a tail that fits `closing`, fit their `repr` text followed by
      `closing`, each field captured. */
  lemma {:induction false} FieldsFit(fs: seq<string>, tail: Pattern, closing: string)
    requires forall i | 0 <= i < |fs| :: DigitsBetween(fs[i], 1, 2)
    requires Fits(tail, closing, [])
    ensures Fits(FieldPattern(|fs|) + tail, Fields(fs) + closing, fs)
    decreases |fs|
  {
    if fs == [] {
      assert FieldPattern(0) + tail == tail && Fields(fs) + closing == closing;
    } else {
      var p := FieldPattern(|fs|) + tail;
      var rest := Fields(fs[1..]) + closing;
      FieldsFit(fs[1..], tail, closing);
      FieldPatternSplit(|fs|, tail);
      FieldsSplit(fs, closing);
      FitsStrGroup(p, fs[0], rest, fs[1..]);
      assert [fs[0]] + fs[1..] == fs;
    }
  }

  /** The first field's tokens, then the other fields and the tail. */
  lemma FieldPatternSplit(n: nat, tail: Pattern)
    requires n > 0
    ensures var p := FieldPattern(n) + tail;
      |p| >= 2 && p[0] == Str(", ") && p[1] == Group(Digit, 1, Some(2)) && p[2..] == FieldPattern(n - 1) + tail
  {
    var p := FieldPattern(n) + tail;
    assert p == [Str(", "), Group(Digit, 1, Some(2))] + (FieldPattern(n - 1) + tail);
  }

  /** The first field's text, then the other fields and the closing text. */
  lemma FieldsSplit(fs: seq<string>, closing: string)
    requires fs != []
    ensures Fields(fs) + closing == ", " + (fs[0] + (Fields(fs[1..]) + closing))
  {
    var a, b, c := ", ", fs[0], Fields(fs[1..]);
    assert Fields(fs) == a + b + c;
    Regroup(a, b, c, closing);
  }

  /** A date or datetime literal fits its pattern, capturing the year and the fields. */
  lemma DatedFits(opening: string, y: string, fs: seq<string>, tail: Pattern, closing: string)
    requires DigitsBetween(y, 4, 4)
    requires forall i | 0 <= i < |fs| :: DigitsBetween(fs[i], 1, 2)
    requires Fits(tail, closing, [])
    ensures Fits(DatedPattern(opening, |fs|, tail), opening + y + (Fields(fs) + closing), [y] + fs)
  {
    var p := DatedPattern(opening, |fs|, tail);
    var rest := Fields(fs) + closing;
    FieldsFit(fs, tail, closing);
    assert p[1..][1..] == FieldPattern(|fs|) + tail;
    FitsGroup(p[1..], y, rest, fs);
    FitsStr(p, y + rest, [y] + fs);
    assert opening + (y + rest) == opening + y + rest;
  }

  /** The unescaped dots of the timezone tail accept the real dots. */
  lemma UtcFits()
    ensures Fits(UtcTail, UtcSuffix, [])
  {
    var p := UtcTail;
    assert p[4..] == [Str("utc)")];
    LastFits(p[4..]);
    assert p[3..][1..] == p[4..];
    FitsAny(p[3..], '.', "utc)", []);
    assert p[2..][1..] == p[3..];
    FitsStr(p[2..], "." + "utc)", []);
    assert p[1..][1..] == p[2..];
    FitsAny(p[1..], '.', "timezone" + ("." + "utc)"), []);
    FitsStr(p, "." + ("timezone" + ("." + "utc)")), []);
  }

  lemma DayExpands(y: string, m: string, d: string)
    ensures ValidTemplate(DayTemplate, 3)
    ensures Expand(DayTemplate, [y, m, d]) == "\"" + y + "-" + m + "-" + d
  {
    var t := DayTemplate;
    var gs := [y, m, d];
    assert Expand(t[6..], gs) == "";
    assert Expand(t[5..], gs) == d;
    assert Expand(t[4..], gs) == "-" + d;
    assert Expand(t[3..], gs) == m + ("-" + d);
    assert Expand(t[2..], gs) == "-" + (m + ("-" + d));
    assert Expand(t[1..], gs) == y + ("-" + (m + ("-" + d)));
    Flatten5("\"", y, "-", m, "-", d);
  }

  lemma DateExpands(y: string, m: string, d: string)
    ensures Expand(DateTemplate, [y, m, d]) == "\"" + y + "-" + m + "-" + d + "\""
  {
    var gs := [y, m, d];
    DayExpands(y, m, d);
    ExpandAppend(DayTemplate, [Text("\"")], gs);
    assert Expand([Text("\"")], gs) == "\"" + "";
  }

  /** `datetime.date(Y, M, D)` becomes the quoted text `"Y-M-D"`, digits copied
      as written (no zero padding); the text after it is rewritten on its own. */
  lemma DateRewritten(y: string, m: string, d: string, v: string)
    requires DigitsBetween(y, 4, 4) && DigitsBetween(m, 1, 2) && DigitsBetween(d, 1, 2)
    ensures RewriteDates(DateLiteral(y, m, d) + v) == "\"" + y + "-" + m + "-" + d + "\"" + RewriteDates(v)
  {
    DateWellFormed();
    assert [Str(")")][0].text == ")";
    LastFits([Str(")")]);
    DatedFits("datetime.date(", y, [m, d], [Str(")")], ")");
    assert [y] + [m, d] == [y, m, d];
    SubReplaces(DatePattern, DateTemplate, DateLiteral(y, m, d), [y, m, d], v);
    DateExpands(y, m, d);
  }

  lemma DateTime6Expands(y: string, mo: string, d: string, h: string, mi: string, s: string)
    ensures Expand(DateTime6Template, [y, mo, d, h, mi, s])
         == "\"" + y + "-" + mo + "-" + d + " " + h + ":" + mi + ":" + s + "\""
  {
    var gs := [y, mo, d, h, mi, s];
    var t := [Text(" "), Ref(3), Text(":"), Ref(4), Text(":"), Ref(5), Text("\"")];
    DayExpands(y, mo, d);
    ExpandExtra(DayTemplate, [y, mo, d], [h, mi, s]);
    assert [y, mo, d] + [h, mi, s] == gs;
    ExpandAppend(DayTemplate, t, gs);
    assert Expand(t[7..], gs) == "";
    assert Expand(t[6..], gs) == "\"";
    assert Expand(t[5..], gs) == s + "\"";
    assert Expand(t[4..], gs) == ":" + (s + "\"");
    assert Expand(t[3..], gs) == mi + (":" + (s + "\""));
    assert Expand(t[2..], gs) == ":" + (mi + (":" + (s + "\"")));
    assert Expand(t[1..], gs) == h + (":" + (mi + (":" + (s + "\""))));
    Flatten7(Expand(DayTemplate, [y, mo, d]), " ", h, ":", mi, ":", s, "\"");
  }

  lemma DateTime5Expands(y: string, mo: string, d: string, h: string, mi: string)
    ensures Expand(DateTime5Template, [y, mo, d, h, mi])
         == "\"" + y + "-" + mo + "-" + d + " " + h + ":" + mi + ":00\""
  {
    var gs := [y, mo, d, h, mi];
    var t := [Text(" "), Ref(3), Text(":"), Ref(4), Text(":00\"")];
    DayExpands(y, mo, d);
    ExpandExtra(DayTemplate, [y, mo, d], [h, mi]);
    assert [y, mo, d] + [h, mi] == gs;
    ExpandAppend(DayTemplate, t, gs);
    assert Expand(t[5..], gs) == "";
    assert Expand(t[4..], gs) == ":00\"";
    assert Expand(t[3..], gs) == mi + ":00\"";
    assert Expand(t[2..], gs) == ":" + (mi + ":00\"");
    assert Expand(t[1..], gs) == h + (":" + (mi + ":00\""));
    Flatten4(Expand(DayTemplate, [y, mo, d]), " ", h, ":", mi + ":00\"");
  }

  /** A UTC `datetime` with seconds becomes `"Y-M-D h:m:s"`, digits copied as written. */
  lemma DateTime6Rewritten(y: string, mo: string, d: string, h: string, mi: string, s: string, v: string)
    requires DigitsBetween(y, 4, 4)
    requires DigitsBetween(mo, 1, 2) && DigitsBetween(d, 1, 2) && DigitsBetween(h, 1, 2)
    requires DigitsBetween(mi, 1, 2) && DigitsBetween(s, 1, 2)
    ensures RewriteDateTimes6(DateTimeLiteral(y, [mo, d, h, mi, s]) + v)
         == "\"" + y + "-" + mo + "-" + d + " " + h + ":" + mi + ":" + s + "\"" + RewriteDateTimes6(v)
  {
    var fs := [mo, d, h, mi, s];
    DateTime6WellFormed();
    UtcFits();
    DatedFits("datetime.datetime(", y, fs, UtcTail, UtcSuffix);
    assert [y] + fs == [y, mo, d, h, mi, s];
    SubReplaces(DateTime6Pattern, DateTime6Template, DateTimeLiteral(y, fs), [y, mo, d, h, mi, s], v);
    DateTime6Expands(y, mo, d, h, mi, s);
  }

  /** A UTC `datetime` written without seconds becomes `"Y-M-D h:m:00"`. */
  lemma DateTime5Rewritten(y: string, mo: string, d: string, h: string, mi: string, v: string)
    requires DigitsBetween(y, 4, 4)
    requires DigitsBetween(mo, 1, 2) && DigitsBetween(d, 1, 2) && DigitsBetween(h, 1, 2)
    requires DigitsBetween(mi, 1, 2)
    ensures RewriteDateTimes5(DateTimeLiteral(y, [mo, d, h, mi]) + v)
         == "\"" + y + "-" + mo + "-" + d + " " + h + ":" + mi + ":00\"" + RewriteDateTimes5(v)
  {
    var fs := [mo, d, h, mi];
    DateTime5WellFormed();
    UtcFits();
    DatedFits("datetime.datetime(", y, fs, UtcTail, UtcSuffix);
    assert [y] + fs == [y, mo, d, h, mi];
    SubReplaces(DateTime5Pattern, DateTime5Template, DateTimeLiteral(y, fs), [y, mo, d, h, mi], v);
    DateTime5Expands(y, mo, d, h, mi);
  }

  lemma {:induction false} FieldPatternLength(n: nat)
    ensures |FieldPattern(n)| == 2 * n
  {
    if n > 0 {
      FieldPatternLength(n - 1);
    }
  }

  /** Both datetime patterns need the `z` of `tzinfo`. */
  lemma UtcLiteralAt(n: nat)
    ensures |DatedPattern("datetime.datetime(", n, UtcTail)| > 2 * n + 2
    ensures DatedPattern("datetime.datetime(", n, UtcTail)[2 * n + 2] == Str(", tzinfo=datetime")
    ensures 'z' in ", tzinfo=datetime"
  {
    FieldPatternLength(n);
    var rest := FieldPattern(n) + UtcTail;
    assert rest[2 * n] == UtcTail[0];
    assert DatedPattern("datetime.datetime(", n, UtcTail)[2 * n + 2] == rest[2 * n];
    assert ", tzinfo=datetime"[3] == 'z';
  }

  /** Text without a `z` (so without `tzinfo=...`) is untouched by both datetime rewrites. */
  lemma ZonelessKept(s: string)
    requires 'z' !in s
    ensures RewriteDateTimes6(s) == s && RewriteDateTimes5(s) == s
  {
    DateTime6WellFormed();
    DateTime5WellFormed();
    UtcLiteralAt(5);
    UtcLiteralAt(4);
    SubWithout(DateTime6Pattern, DateTime6Template, s, 12, 'z');
    SubWithout(DateTime5Pattern, DateTime5Template, s, 10, 'z');
  }

  /** `datetime.datetime(Y, M, D, h, m[, s])`: a datetime with no timezone. */
  function NaiveDateTimeLiteral(y: string, fields: seq<string>): string
  {
    "datetime.datetime(" + y + (Fields(fields) + ")")
  }

  lemma {:induction false} FieldsWithout(fs: seq<string>, c: char)
    requires forall i | 0 <= i < |fs| :: c !in fs[i]
    requires c != ',' && c != ' '
    ensures c !in Fields(fs)
    decreases |fs|
  {
    if fs != [] {
      FieldsWithout(fs[1..], c);
      assert Fields(fs) == ", " + fs[0] + Fields(fs[1..]);
    }
  }

  /** A datetime without a timezone keeps its `repr` text: only UTC ones are rewritten. */
  lemma NaiveDateTimeKept(y: string, fields: seq<string>)
    requires DigitsBetween(y, 4, 4)
    requires forall i | 0 <= i < |fields| :: DigitsBetween(fields[i], 1, 2)
    ensures RewriteDateTimes6(NaiveDateTimeLiteral(y, fields)) == NaiveDateTimeLiteral(y, fields)
    ensures RewriteDateTimes5(NaiveDateTimeLiteral(y, fields)) == NaiveDateTimeLiteral(y, fields)
  {
    forall i | 0 <= i < |fields| ensures 'z' !in fields[i] {
      assert forall k | 0 <= k < |fields[i]| :: InClass(Digit, fields[i][k]);
    }
    FieldsWithout(fields, 'z');
    assert forall k | 0 <= k < |y| :: InClass(Digit, y[k]);
    assert 'z' !in "datetime.datetime(";
    ZonelessKept(NaiveDateTimeLiteral(y, fields));
  }

  /** `datetime.datetime(Y, f1, ..., fn`: a datetime's `repr` up to the keyword
      arguments that follow its fields. */
  function DateTimeHead(y: string, fields: seq<string>): string
  {
    "datetime.datetime(" + y + Fields(fields)
  }

  /** Fields as `repr` writes them: runs of digits. */
  predicate DigitFields(fields: seq<string>)
  {
    forall i | 0 <= i < |fields| :: fields[i] != [] && AllIn(Digit, fields[i])
  }

  /** Text the tail of both datetime patterns accepts: `, tzinfo=datetime.timezone.utc)`
      with any character but a newline in place of each of its two unescaped dots. */
  predicate UtcZone(rest: string)
  {
    MatchPrefix(UtcTail, rest).Some?
  }

  /** One field of a datetime pattern: `, (\d{1,2})`. */
  const FieldTokens: Pattern := [Str(", "), Group(Digit, 1, Some(2))]

  lemma FieldPatternCons(n: nat)
    requires n > 0
    ensures FieldPattern(n) + UtcTail == FieldTokens + (FieldPattern(n - 1) + UtcTail)
  {
    assert FieldPattern(n) == FieldTokens + FieldPattern(n - 1);
    Assoc(FieldTokens, FieldPattern(n - 1), UtcTail);
  }

  /** Where a field is due and the keyword argument comes instead, there is no match. */
  lemma FieldMissing(q: Pattern, rest: string)
    requires StartsWith(rest, ", t")
    ensures MatchPrefix(FieldTokens + q, rest).None?
  {
    StartsWithAt(rest, ", t", 2);
    assert rest == ", " + ([] + rest[2..]) by {
      assert rest[..2] == ", ";
    }
    StrGroupMatch(", ", Digit, 1, Some(2), q, [], rest[2..]);
  }

  /** Where the keyword argument is due and a field comes instead, there is no match. */
  lemma FieldInsteadOfZone(f: string, after: string)
    requires f != [] && AllIn(Digit, f)
    ensures MatchPrefix(UtcTail, ", " + (f + after)).None?
  {
    var s := ", " + (f + after);
    assert s[2] == f[0] && InClass(Digit, f[0]);
    StrMismatch(UtcTail, s, 2);
  }

  /** Fields and then a keyword argument: the pattern's fields and tail do not
      match when the number of fields is not the one the pattern asks for, or
      when the keyword argument is not the UTC zone. */
  lemma {:induction false} FieldsNoMatch(n: nat, fields: seq<string>, rest: string)
    requires DigitFields(fields) && StartsWith(rest, ", t") && (|fields| != n || !UtcZone(rest))
    ensures MatchPrefix(FieldPattern(n) + UtcTail, Fields(fields) + rest).None?
    decreases n
  {
    var p := FieldPattern(n) + UtcTail;
    var s := Fields(fields) + rest;
    if n == 0 {
      assert p == UtcTail;
      if fields != [] {
        assert Fields(fields) == ", " + fields[0] + Fields(fields[1..]);
        Regroup(", ", fields[0], Fields(fields[1..]), rest);
        FieldInsteadOfZone(fields[0], Fields(fields[1..]) + rest);
        assert MatchPrefix(p, s).None?;
      } else {
        assert s == rest;
        assert MatchPrefix(p, s).None?;
      }
    } else {
      var q := FieldPattern(n - 1) + UtcTail;
      FieldPatternCons(n);
      assert p == FieldTokens + q;
      if fields == [] {
        assert s == rest;
        FieldMissing(q, rest);
        assert MatchPrefix(p, s).None?;
      } else {
        FieldsNext(n, fields, rest);
        var after := Fields(fields[1..]) + rest;
        assert MatchPrefix(q, after).None?;
        assert Fields(fields) == ", " + fields[0] + Fields(fields[1..]);
        Regroup(", ", fields[0], Fields(fields[1..]), rest);
        assert after[0] == ',' by {
          if |fields| > 1 {
            assert Fields(fields[1..])[0] == ',';
          } else {
            StartsWithAt(rest, ", t", 0);
            assert after == rest;
          }
        }
        StrGroupMatch(", ", Digit, 1, Some(2), q, fields[0], after);
        assert MatchPrefix(p, s).None?;
      }
    }
  }

  /** The step of `FieldsNoMatch` to the remaining fields. */
  lemma {:induction false} FieldsNext(n: nat, fields: seq<string>, rest: string)
    requires n > 0 && fields != []
    requires DigitFields(fields) && StartsWith(rest, ", t") && (|fields| != n || !UtcZone(rest))
    ensures MatchPrefix(FieldPattern(n - 1) + UtcTail, Fields(fields[1..]) + rest).None?
    decreases n, 0
  {
    assert DigitFields(fields[1..]) by {
      forall i | 0 <= i < |fields| - 1 ensures fields[1..][i] == fields[i + 1] { }
    }
    FieldsNoMatch(n - 1, fields[1..], rest);
  }

  /** A datetime pattern does not match at a datetime whose keyword arguments do
      not start with the UTC zone, nor at one with a number of fields it does not
      ask for. */
  lemma DatedNoMatch(n: nat, y: string, fields: seq<string>, rest: string)
    requires y != [] && AllIn(Digit, y) && DigitFields(fields)
    requires StartsWith(rest, ", t") && (|fields| != n || !UtcZone(rest))
    ensures MatchPrefix(DatedPattern("datetime.datetime(", n, UtcTail), DateTimeHead(y, fields) + rest).None?
  {
    FieldsNoMatch(n, fields, rest);
    var after := Fields(fields) + rest;
    if fields != [] {
      assert Fields(fields)[0] == ',';
    } else {
      StartsWithAt(rest, ", t", 0);
      assert after == rest;
    }
    StrGroupMatch("datetime.datetime(", Digit, 4, Some(4), FieldPattern(n) + UtcTail, y, after);
    Regroup("datetime.datetime(", y, Fields(fields), rest);
  }

  /** The head of a datetime, cut at its two `d`s. */
  lemma DateTimeHeadSplit(y: string, fields: seq<string>)
    ensures DateTimeHead(y, fields) == "d" + "atetime." + "d" + ("atetime(" + y + Fields(fields))
  {
    assert "datetime.datetime(" == "d" + "atetime." + "d" + "atetime(";
    Regroup("d" + "atetime." + "d", "atetime(", y, Fields(fields));
    Assoc("d" + "atetime." + "d", "atetime(" + y, Fields(fields));
  }

  /** After its first `d`s the head of a datetime holds no `d`. */
  lemma HeadTailWithoutD(y: string, fields: seq<string>)
    requires AllIn(Digit, y) && DigitFields(fields)
    ensures 'd' !in "atetime(" + y + Fields(fields)
  {
    assert 'd' !in y by {
      assert forall k | 0 <= k < |y| :: InClass(Digit, y[k]);
    }
    forall i | 0 <= i < |fields| ensures 'd' !in fields[i] {
      assert forall k | 0 <= k < |fields[i]| :: InClass(Digit, fields[i][k]);
    }
    FieldsWithout(fields, 'd');
  }

  /** Where a pattern opening with `datetime.` does not match at the head of a
      datetime, `re.sub` copies that head and carries on behind it. */
  lemma HeadCopied(p: Pattern, tpl: Template, y: string, fields: seq<string>, rest: string)
    requires Anchored(p) && ValidTemplate(tpl, GroupCount(p)) && StartsWith(p[0].text, "datetime.")
    requires AllIn(Digit, y) && DigitFields(fields)
    requires MatchPrefix(p, DateTimeHead(y, fields) + rest).None?
    ensures Sub(p, tpl, DateTimeHead(y, fields) + rest) == DateTimeHead(y, fields) + Sub(p, tpl, rest)
  {
    var u := "atetime(" + y + Fields(fields);
    var s2 := "d" + (u + rest);
    DateTimeHeadSplit(y, fields);
    Flatten4("d", "atetime.", "d", u, rest);
    StartsWithAt(p[0].text, "datetime.", 0);
    assert 'd' !in "atetime.";
    SubSkips(p, tpl, 'd', "atetime." + s2);
    SubCopies(p, tpl, "atetime.", s2);
    SecondHalfCopied(p, tpl, y, fields, rest);
    Flatten4("d", "atetime.", "d", u, Sub(p, tpl, rest));
  }

  /** The step of `HeadCopied` from the head's second `d` on: `datetime(` does not
      start with `datetime.`, and no `d` follows before the keyword arguments. */
  lemma SecondHalfCopied(p: Pattern, tpl: Template, y: string, fields: seq<string>, rest: string)
    requires Anchored(p) && ValidTemplate(tpl, GroupCount(p)) && StartsWith(p[0].text, "datetime.")
    requires AllIn(Digit, y) && DigitFields(fields)
    ensures var u := "atetime(" + y + Fields(fields);
      Sub(p, tpl, "d" + (u + rest)) == "d" + (u + Sub(p, tpl, rest))
  {
    var u := "atetime(" + y + Fields(fields);
    var s2 := "d" + (u + rest);
    StartsWithAt(p[0].text, "datetime.", 0);
    StartsWithAt(p[0].text, "datetime.", 8);
    assert s2[8] == '(';
    StrMismatch(p, s2, 8);
    SubSkips(p, tpl, 'd', u + rest);
    HeadTailWithoutD(y, fields);
    SubCopies(p, tpl, u, rest);
  }

  /** A datetime pattern copies the head of a datetime whose keyword arguments do
      not start with the UTC zone, or whose number of fields it does not ask for,
      and the scan carries on in the keyword arguments. */
  lemma DatedHeadKept(n: nat, tpl: Template, y: string, fields: seq<string>, rest: string)
    requires Anchored(DatedPattern("datetime.datetime(", n, UtcTail))
    requires ValidTemplate(tpl, GroupCount(DatedPattern("datetime.datetime(", n, UtcTail)))
    requires y != [] && AllIn(Digit, y) && DigitFields(fields)
    requires StartsWith(rest, ", t") && (|fields| != n || !UtcZone(rest))
    ensures var p := DatedPattern("datetime.datetime(", n, UtcTail);
      Sub(p, tpl, DateTimeHead(y, fields) + rest) == DateTimeHead(y, fields) + Sub(p, tpl, rest)
  {
    var p := DatedPattern("datetime.datetime(", n, UtcTail);
    DatedNoMatch(n, y, fields, rest);
    assert p[0] == Str("datetime.datetime(");
    assert StartsWith("datetime.datetime(", "datetime.");
    HeadCopied(p, tpl, y, fields, rest);
  }

  /** A datetime with a timezone other than `datetime.timezone.utc` (a fixed offset
      such as `datetime.timezone(datetime.timedelta(seconds=28800))`, or a named
      zone) keeps its year and fields: neither datetime pattern matches at it, and
      the scan carries on in its keyword arguments. */
  lemma OtherZoneHeadKept(y: string, fields: seq<string>, rest: string)
    requires y != [] && AllIn(Digit, y) && DigitFields(fields)
    requires StartsWith(rest, ", tzinfo=") && !UtcZone(rest)
    ensures RewriteDateTimes6(DateTimeHead(y, fields) + rest) == DateTimeHead(y, fields) + RewriteDateTimes6(rest)
    ensures RewriteDateTimes5(DateTimeHead(y, fields) + rest) == DateTimeHead(y, fields) + RewriteDateTimes5(rest)
  {
    StartsWithTrans(rest, ", tzinfo=", ", t");
    DateTime6WellFormed();
    DateTime5WellFormed();
    DatedHeadKept(5, DateTime6Template, y, fields, rest);
    DatedHeadKept(4, DateTime5Template, y, fields, rest);
  }

  /** Such a datetime is kept whole when its keyword arguments hold no other datetime. */
  lemma OtherZoneKept(y: string, fields: seq<string>, rest: string)
    requires y != [] && AllIn(Digit, y) && DigitFields(fields)
    requires StartsWith(rest, ", tzinfo=") && !UtcZone(rest)
    requires !Contains(rest, "datetime.datetime(")
    ensures RewriteDateTimes6(DateTimeHead(y, fields) + rest) == DateTimeHead(y, fields) + rest
    ensures RewriteDateTimes5(DateTimeHead(y, fields) + rest) == DateTimeHead(y, fields) + rest
  {
    OtherZoneHeadKept(y, fields, rest);
    DateTime6WellFormed();
    DateTime5WellFormed();
    SubWithoutOpening(DateTime6Pattern, DateTime6Template, rest);
    SubWithoutOpening(DateTime5Pattern, DateTime5Template, rest);
  }

  // ---------------------------------------------------------------------------
  // The four rewrites together: what reaches `literal_eval`

  /** `, tzinfo=datetime.timezone.utc)` is copied by a pattern opening with
      `datetime.d`: its one `d` starts `datetime.timezone`. */
  lemma UtcSuffixCopied(p: Pattern, tpl: Template, w: string)
    requires Anchored(p) && ValidTemplate(tpl, GroupCount(p)) && StartsWith(p[0].text, "datetime.d")
    ensures Sub(p, tpl, UtcSuffix + w) == UtcSuffix + Sub(p, tpl, w)
  {
    var a := ", tzinfo=";
    var b := "atetime.timezone.utc)";
    assert UtcSuffix == a + ("d" + b);
    assert 'd' !in a && 'd' !in b;
    ZoneNameMismatch(p, w);
    CopiedAroundD(p, tpl, a, b, w);
  }

  /** A pattern opening with `datetime.d` does not match at `datetime.timezone`. */
  lemma ZoneNameMismatch(p: Pattern, w: string)
    requires p != [] && p[0].Str? && StartsWith(p[0].text, "datetime.d")
    ensures MatchPrefix(p, "d" + ("atetime.timezone.utc)" + w)).None?
  {
    var s2 := "d" + ("atetime.timezone.utc)" + w);
    StartsWithAt(p[0].text, "datetime.d", 9);
    assert s2[9] == 't';
    StrMismatch(p, s2, 9);
  }

  /** Text whose one `d` starts no match is copied by a pattern opening with `d`. */
  lemma CopiedAroundD(p: Pattern, tpl: Template, a: string, b: string, w: string)
    requires Anchored(p) && ValidTemplate(tpl, GroupCount(p)) && p[0].text[0] == 'd'
    requires 'd' !in a && 'd' !in b && MatchPrefix(p, "d" + (b + w)).None?
    ensures Sub(p, tpl, a + ("d" + b) + w) == a + ("d" + b) + Sub(p, tpl, w)
  {
    SubSkips(p, tpl, 'd', b + w);
    SubCopies(p, tpl, b, w);
    SubCopies(p, tpl, a, "d" + (b + w));
    Assoc(a, "d", b);
    Regroup(a, "d", b, w);
    Regroup(a, "d", b, Sub(p, tpl, w));
  }

  /** A UTC datetime is its head followed by the UTC keyword argument. */
  lemma DateTimeLiteralSplit(y: string, fields: seq<string>, w: string)
    ensures DateTimeLiteral(y, fields) + w == DateTimeHead(y, fields) + (UtcSuffix + w)
  {
    Assoc("datetime.datetime(" + y, Fields(fields), UtcSuffix);
    Assoc(DateTimeHead(y, fields), UtcSuffix, w);
  }

  /** The `Decimal` rewrite copies text without a `D`. */
  lemma DecimalsSkip(t: string, w: string)
    requires 'D' !in t
    ensures RewriteDecimals(t + w) == t + RewriteDecimals(w)
  {
    DecimalWellFormed();
    SubCopies(DecimalPattern, DecimalTemplate, t, w);
  }

  /** The `datetime` rewrites copy text without a `d`. */
  lemma DateTimesSkip(t: string, w: string)
    requires 'd' !in t
    ensures RewriteDateTimes5(t + w) == t + RewriteDateTimes5(w)
    ensures RewriteDateTimes5(RewriteDateTimes6(t + w)) == t + RewriteDateTimes5(RewriteDateTimes6(w))
  {
    DateTime6WellFormed();
    DateTime5WellFormed();
    SubCopies(DateTime6Pattern, DateTime6Template, t, w);
    SubCopies(DateTime5Pattern, DateTime5Template, t, RewriteDateTimes6(w));
    SubCopies(DateTime5Pattern, DateTime5Template, t, w);
  }

  /** The three rewrites after the `Decimal` one copy text without a `d`. */
  lemma LaterRewritesSkip(t: string, w: string)
    requires 'd' !in t
    ensures RewriteDateTimes5(RewriteDateTimes6(RewriteDates(t + w)))
         == t + RewriteDateTimes5(RewriteDateTimes6(RewriteDates(w)))
  {
    DateWellFormed();
    SubCopies(DatePattern, DateTemplate, t, w);
    DateTimesSkip(t, RewriteDates(w));
  }

  /** Digits hold neither a `d` nor a `D`. */
  lemma DigitsWithoutD(s: string)
    requires AllIn(Digit, s)
    ensures 'd' !in s && 'D' !in s
  {
    assert forall k | 0 <= k < |s| :: InClass(Digit, s[k]);
  }

  /** Fields of digits: each field holds neither a `d` nor a `D`. */
  lemma DigitFieldsWithoutD(fields: seq<string>)
    requires DigitFields(fields)
    ensures 'd' !in Fields(fields) && 'D' !in Fields(fields)
  {
    forall i | 0 <= i < |fields| ensures 'd' !in fields[i] && 'D' !in fields[i] {
      DigitsWithoutD(fields[i]);
    }
    FieldsWithout(fields, 'd');
    FieldsWithout(fields, 'D');
  }

  /** A UTC datetime of digits holds no `D`. */
  lemma DateTimeLiteralWithoutUpperD(y: string, fields: seq<string>)
    requires AllIn(Digit, y) && DigitFields(fields)
    ensures 'D' !in DateTimeLiteral(y, fields)
  {
    DigitsWithoutD(y);
    DigitFieldsWithoutD(fields);
    assert 'D' !in "datetime.datetime(" && 'D' !in UtcSuffix;
  }

  /** The `date` rewrite copies a UTC datetime: `datetime.datetime(` is not
      `datetime.date(`, and neither are the zone's `datetime.timezone`. */
  lemma DatesSkipDateTime(y: string, fields: seq<string>, w: string)
    requires AllIn(Digit, y) && DigitFields(fields)
    ensures RewriteDates(DateTimeLiteral(y, fields) + w) == DateTimeLiteral(y, fields) + RewriteDates(w)
  {
    var rest := UtcSuffix + w;
    DateWellFormed();
    DateTimeLiteralSplit(y, fields, w);
    DateTimeLiteralSplit(y, fields, RewriteDates(w));
    DateMissesDateTime(y, fields, rest);
    assert DatePattern[0] == Str("datetime.date(");
    assert StartsWith("datetime.date(", "datetime.d");
    StartsWithTrans("datetime.date(", "datetime.d", "datetime.");
    HeadCopied(DatePattern, DateTemplate, y, fields, rest);
    UtcSuffixCopied(DatePattern, DateTemplate, w);
  }

  /** `datetime.date(` differs from `datetime.datetime(` at its fourteenth character. */
  lemma DateMissesDateTime(y: string, fields: seq<string>, rest: string)
    ensures MatchPrefix(DatePattern, DateTimeHead(y, fields) + rest).None?
  {
    var s := DateTimeHead(y, fields) + rest;
    Regroup("datetime.datetime(", y, Fields(fields), rest);
    assert s[13] == 't';
    assert DatePattern[0] == Str("datetime.date(");
    StrMismatch(DatePattern, s, 13);
  }

  /** A datetime pattern copies a UTC datetime with a number of fields it does
      not ask for. */
  lemma DatedSkipsOtherCount(n: nat, tpl: Template, y: string, fields: seq<string>, w: string)
    requires Anchored(DatedPattern("datetime.datetime(", n, UtcTail))
    requires ValidTemplate(tpl, GroupCount(DatedPattern("datetime.datetime(", n, UtcTail)))
    requires y != [] && AllIn(Digit, y) && DigitFields(fields) && |fields| != n
    ensures var p := DatedPattern("datetime.datetime(", n, UtcTail);
      Sub(p, tpl, DateTimeLiteral(y, fields) + w) == DateTimeLiteral(y, fields) + Sub(p, tpl, w)
  {
    var p := DatedPattern("datetime.datetime(", n, UtcTail);
    DateTimeLiteralSplit(y, fields, w);
    DateTimeLiteralSplit(y, fields, Sub(p, tpl, w));
    assert StartsWith(UtcSuffix + w, ", t") by {
      assert (UtcSuffix + w)[..3] == ", t";
    }
    DatedHeadKept(n, tpl, y, fields, UtcSuffix + w);
    assert p[0] == Str("datetime.datetime(");
    assert StartsWith("datetime.datetime(", "datetime.d");
    UtcSuffixCopied(p, tpl, w);
  }

  /** A `Decimal` reaches `literal_eval` as its bare digits: the later rewrites
      leave them alone. */
  lemma DecimalReachesParser(digits: string, v: string)
    requires digits != [] && AllIn(DigitOrDot, digits)
    ensures RewriteLiterals(DecimalLiteral(digits) + v) == digits + RewriteLiterals(v)
  {
    DecimalRewritten(digits, v);
    assert 'd' !in digits by {
      assert forall k | 0 <= k < |digits| :: InClass(DigitOrDot, digits[k]);
    }
    LaterRewritesSkip(digits, RewriteDecimals(v));
  }

  /** A `date` of digits holds no `D`, and its quoted form holds no `d`. */
  lemma DateLiteralWithoutD(y: string, m: string, d: string)
    requires AllIn(Digit, y) && AllIn(Digit, m) && AllIn(Digit, d) && m != [] && d != []
    ensures 'D' !in DateLiteral(y, m, d)
    ensures 'd' !in "\"" + y + "-" + m + "-" + d + "\""
  {
    DigitsWithoutD(y);
    DigitsWithoutD(m);
    DigitsWithoutD(d);
    assert DigitFields([m, d]);
    DigitFieldsWithoutD([m, d]);
    assert 'D' !in "datetime.date(" && 'D' !in ")";
  }

  /** The quoted form of a datetime of digits holds no `d`. */
  lemma QuotedDateTimeWithoutD(y: string, mo: string, d: string, h: string, mi: string, tail: string)
    requires AllIn(Digit, y) && AllIn(Digit, mo) && AllIn(Digit, d)
    requires AllIn(Digit, h) && AllIn(Digit, mi) && AllIn(Digit, tail)
    ensures 'd' !in "\"" + y + "-" + mo + "-" + d + " " + h + ":" + mi + ":" + tail + "\""
  {
    DigitsWithoutD(y);
    DigitsWithoutD(mo);
    DigitsWithoutD(d);
    DigitsWithoutD(h);
    DigitsWithoutD(mi);
    DigitsWithoutD(tail);
  }

  /** A `date` reaches `literal_eval` as the quoted string `"Y-M-D"`. */
  lemma DateReachesParser(y: string, m: string, d: string, v: string)
    requires DigitsBetween(y, 4, 4) && DigitsBetween(m, 1, 2) && DigitsBetween(d, 1, 2)
    ensures RewriteLiterals(DateLiteral(y, m, d) + v)
         == "\"" + y + "-" + m + "-" + d + "\"" + RewriteLiterals(v)
  {
    var q := "\"" + y + "-" + m + "-" + d + "\"";
    DateLiteralWithoutD(y, m, d);
    DecimalsSkip(DateLiteral(y, m, d), v);
    DateRewritten(y, m, d, RewriteDecimals(v));
    DateTimesSkip(q, RewriteDates(RewriteDecimals(v)));
  }

  /** A UTC `datetime` with seconds reaches `literal_eval` as `"Y-M-D h:m:s"`. */
  lemma DateTime6ReachesParser(y: string, mo: string, d: string, h: string, mi: string, s: string, v: string)
    requires DigitsBetween(y, 4, 4)
    requires DigitsBetween(mo, 1, 2) && DigitsBetween(d, 1, 2) && DigitsBetween(h, 1, 2)
    requires DigitsBetween(mi, 1, 2) && DigitsBetween(s, 1, 2)
    ensures RewriteLiterals(DateTimeLiteral(y, [mo, d, h, mi, s]) + v)
         == "\"" + y + "-" + mo + "-" + d + " " + h + ":" + mi + ":" + s + "\"" + RewriteLiterals(v)
  {
    var fs := [mo, d, h, mi, s];
    var q := "\"" + y + "-" + mo + "-" + d + " " + h + ":" + mi + ":" + s + "\"";
    var v1 := RewriteDecimals(v);
    var v2 := RewriteDates(v1);
    assert DigitFields(fs);
    DateTimeLiteralWithoutUpperD(y, fs);
    DecimalsSkip(DateTimeLiteral(y, fs), v);
    DatesSkipDateTime(y, fs, v1);
    DateTime6Rewritten(y, mo, d, h, mi, s, v2);
    QuotedDateTimeWithoutD(y, mo, d, h, mi, s);
    DateTimesSkip(q, RewriteDateTimes6(v2));
  }

  /** A UTC `datetime` without seconds reaches `literal_eval` as `"Y-M-D h:m:00"`:
      the six-field rewrite, which runs first, leaves it alone. */
  lemma DateTime5ReachesParser(y: string, mo: string, d: string, h: string, mi: string, v: string)
    requires DigitsBetween(y, 4, 4)
    requires DigitsBetween(mo, 1, 2) && DigitsBetween(d, 1, 2) && DigitsBetween(h, 1, 2)
    requires DigitsBetween(mi, 1, 2)
    ensures RewriteLiterals(DateTimeLiteral(y, [mo, d, h, mi]) + v)
         == "\"" + y + "-" + mo + "-" + d + " " + h + ":" + mi + ":00\"" + RewriteLiterals(v)
  {
    var fs := [mo, d, h, mi];
    var v1 := RewriteDecimals(v);
    var v2 := RewriteDates(v1);
    assert DigitFields(fs);
    DateTimeLiteralWithoutUpperD(y, fs);
    DecimalsSkip(DateTimeLiteral(y, fs), v);
    DatesSkipDateTime(y, fs, v1);
    DateTime6WellFormed();
    DatedSkipsOtherCount(5, DateTime6Template, y, fs, v2);
    DateTime5Rewritten(y, mo, d, h, mi, RewriteDateTimes6(v2));
  }

  /** A UTC `datetime` whose number of fields is neither five nor four, such as
      one with microseconds (`datetime.datetime(2024, 3, 1, 12, 30, 45, 123456,
      tzinfo=datetime.timezone.utc)`), reaches `literal_eval` unchanged. */
  lemma OtherFieldCountReachesParser(y: string, fields: seq<string>, v: string)
    requires y != [] && AllIn(Digit, y) && DigitFields(fields)
    requires |fields| != 5 && |fields| != 4
    ensures RewriteLiterals(DateTimeLiteral(y, fields) + v) == DateTimeLiteral(y, fields) + RewriteLiterals(v)
  {
    var v1 := RewriteDecimals(v);
    var v2 := RewriteDates(v1);
    DateTimeLiteralWithoutUpperD(y, fields);
    DecimalsSkip(DateTimeLiteral(y, fields), v);
    DatesSkipDateTime(y, fields, v1);
    DateTime6WellFormed();
    DateTime5WellFormed();
    DatedSkipsOtherCount(5, DateTime6Template, y, fields, v2);
    DatedSkipsOtherCount(4, DateTime5Template, y, fields, RewriteDateTimes6(v2));
  }

  // ---------------------------------------------------------------------------
  // convert_result_to_df: parsing into a table

  /** A table as pandas builds it: column labels and rows of cells. */
  datatype Table = Table(columns: seq<string>, rows: seq<seq<string>>)

  /** `DataFrame.empty`: no columns or no rows. */
  predicate IsEmpty(t: Table)
  {
    |t.columns| == 0 || |t.rows| == 0
  }

  /** `pd.DataFrame()` */
  const EmptyTable: Table := Table([], [])

  /** What `ast.literal_eval` makes of the rewritten text, with the table
      `pd.DataFrame` builds from the value (or the error it raises). */
  datatype Parsed =
    | Malformed(error: string)
    | ListValue(frame: Result<Table>)
    | OtherValue(truthy: bool, frame: Result<Table>)

  /** `convert_result_to_df`: no result gives an empty table; otherwise the four
      literal rewrites run, the text is parsed, and a truthy value that is not a
      list gives an empty table too. */
  function ConvertResultToDf(queryResult: Option<string>, parse: string -> Parsed): (r: Result<Table>)
    ensures queryResult == None || queryResult == Some("") ==> r == Ok(EmptyTable) && IsEmpty(r.value)
    ensures queryResult.Some? && queryResult.value != "" ==>
      var parsed := parse(RewriteLiterals(queryResult.value));
      && (parsed.Malformed? ==> r == Err(parsed.error))
      && (parsed.OtherValue? && parsed.truthy ==> r == Ok(EmptyTable))
      && (parsed.ListValue? || (parsed.OtherValue? && !parsed.truthy) ==> r == parsed.frame)
  {
    match queryResult
    case None => Ok(EmptyTable)
    case Some(q) =>
      if q == "" then Ok(EmptyTable)
      else
        match parse(RewriteLiterals(q))
        case Malformed(e) => Err(e)
        case ListValue(frame) => frame
        case OtherValue(truthy, frame) => if truthy then Ok(EmptyTable) else frame
  }
}
