/** The fragment of Python's `re` module that the result rewriter relies on:
    literal text, `.`, and capture groups around one digit class with a
    repetition count, plus the left-to-right scan of `re.sub` with a
    replacement template such as `r'"\1-\2-\3"'`. */
module Regex {
  import opened Types
  import opened Text

  /** The two character classes the patterns use: `\d` and `[\d\.]`. */
  datatype Class = Digit | DigitOrDot

  predicate InClass(k: Class, c: char)
  {
    match k
    case Digit => '0' <= c <= '9'
    case DigitOrDot => '0' <= c <= '9' || c == '.'
  }

  predicate AllIn(k: Class, s: string)
  {
    forall i | 0 <= i < |s| :: InClass(k, s[i])
  }

  datatype Token =
    | Str(text: string)                            // literal text, escapes resolved
    | AnyChar                                      // `.`: any character except a newline
    | Group(k: Class, min: nat, max: Option<nat>)  // `(\d{m,n})`, `([\d\.]+)` (max None)

  type Pattern = seq<Token>

  /** A replacement template: literal text and group references (`\1` is `Ref(0)`). */
  datatype Piece = Text(s: string) | Ref(n: nat)

  type Template = seq<Piece>

  function GroupCount(p: Pattern): nat
  {
    if p == [] then 0 else (if p[0].Group? then 1 else 0) + GroupCount(p[1..])
  }

  predicate ValidTemplate(tpl: Template, groups: nat)
  {
    forall i | 0 <= i < |tpl| :: tpl[i].Ref? ==> tpl[i].n < groups
  }

  /** The replacement text for one match: the template with each reference
      replaced by the text its group captured. */
  function Expand(tpl: Template, groups: seq<string>): string
    requires ValidTemplate(tpl, |groups|)
  {
    if tpl == [] then ""
    else
      (match tpl[0] case Text(s) => s case Ref(n) => groups[n]) + Expand(tpl[1..], groups)
  }

  /** The length of the longest prefix of `s` inside class `k`. */
  function Run(k: Class, s: string): (n: nat)
    ensures n <= |s| && AllIn(k, s[..n])
    ensures n < |s| ==> !InClass(k, s[n])
  {
    if s != [] && InClass(k, s[0]) then
      var n := 1 + Run(k, s[1..]);
      assert s[..n] == [s[0]] + s[1..][..n - 1];
      n
    else 0
  }

  /** A run of a class stops at the first character outside it. */
  lemma {:induction false} RunStops(k: Class, x: string, w: string)
    requires AllIn(k, x) && w != [] && !InClass(k, w[0])
    ensures Run(k, x + w) == |x|
    decreases |x|
  {
    if x == [] {
      assert x + w == w;
    } else {
      assert (x + w)[0] == x[0] && (x + w)[1..] == x[1..] + w;
      forall i | 0 <= i < |x| - 1 ensures InClass(k, x[1..][i]) {
        assert x[1..][i] == x[i + 1];
      }
      RunStops(k, x[1..], w);
    }
  }

  /** A run that ends inside `x` ends there whatever follows `x`. */
  lemma {:induction false} RunWithin(k: Class, x: string, w: string)
    requires Run(k, x) < |x|
    ensures Run(k, x + w) == Run(k, x)
    decreases |x|
  {
    assert (x + w)[0] == x[0];
    if InClass(k, x[0]) {
      assert (x + w)[1..] == x[1..] + w;
      RunWithin(k, x[1..], w);
    }
  }

  /** How many characters one token consumes at the front of `s`, if it matches.
      A group takes the whole run of its class: see `Separated` for why this is
      what Python's backtracking matcher ends up with. */
  function Step(t: Token, s: string): (n: Option<nat>)
    ensures n.Some? ==> n.value <= |s|
    ensures n.Some? && t.Str? ==> n.value == |t.text|
  {
    match t
    case Str(lit) => if StartsWith(s, lit) then Some(|lit|) else None
    case AnyChar => if s != [] && s[0] != '\n' then Some(1) else None
    case Group(k, lo, hi) =>
      var n := Run(k, s);
      if lo <= n && (hi.None? || n <= hi.value) then Some(n) else None
  }

  datatype Match = Match(groups: seq<string>, len: nat)

  function Captured(t: Token, text: string): seq<string>
  {
    if t.Group? then [text] else []
  }

  /** `re.match(p, s)`: the match starting at the first character of `s`. */
  function MatchPrefix(p: Pattern, s: string): (m: Option<Match>)
    ensures m.Some? ==> m.value.len <= |s| && |m.value.groups| == GroupCount(p)
    ensures m.Some? && p != [] && p[0].Str? ==> m.value.len >= |p[0].text|
    decreases |p|
  {
    if p == [] then Some(Match([], 0))
    else
      match Step(p[0], s)
      case None => None
      case Some(n) =>
        match MatchPrefix(p[1..], s[n..])
        case None => None
        case Some(m) => Some(Match(Captured(p[0], s[..n]) + m.groups, n + m.len))
  }

  /** A pattern that starts with a literal does not match where the text differs from it. */
  lemma StrMismatch(p: Pattern, s: string, i: nat)
    requires p != [] && p[0].Str? && i < |p[0].text| && i < |s| && s[i] != p[0].text[i]
    ensures MatchPrefix(p, s).None?
  {
    StartsWithAt(s, p[0].text, i);
  }

  /** A match of a non-empty pattern is a step of its first token and a match of
      the rest after it. */
  lemma MatchPrefixCons(p: Pattern, s: string)
    requires p != []
    ensures MatchPrefix(p, s).Some? ==>
      Step(p[0], s).Some? && MatchPrefix(p[1..], s[Step(p[0], s).value..]).Some?
  {
  }

  /** A match that starts with a literal goes on right after the literal. */
  lemma StrThen(lit: string, q: Pattern, t: string)
    ensures MatchPrefix([Str(lit)] + q, lit + t).Some? ==> MatchPrefix(q, t).Some?
  {
    var p := [Str(lit)] + q;
    var s := lit + t;
    assert s[..|lit|] == lit && s[|lit|..] == t;
    assert p[0] == Str(lit) && p[1..] == q;
    MatchPrefixCons(p, s);
  }

  /** A group takes the whole run `g` of its class, so a match needs `g` within
      the group's bounds and the rest of the pattern to match right after `g`. */
  lemma GroupThen(k: Class, lo: nat, hi: Option<nat>, q: Pattern, g: string, w: string)
    requires AllIn(k, g) && w != [] && !InClass(k, w[0])
    ensures MatchPrefix([Group(k, lo, hi)] + q, g + w).Some? ==>
      lo <= |g| && (hi.None? || |g| <= hi.value) && MatchPrefix(q, w).Some?
  {
    var p := [Group(k, lo, hi)] + q;
    RunStops(k, g, w);
    assert p[0] == Group(k, lo, hi) && p[1..] == q && (g + w)[|g|..] == w;
    MatchPrefixCons(p, g + w);
  }

  /** A literal and then a group: see `GroupThen`. */
  lemma StrGroupMatch(lit: string, k: Class, lo: nat, hi: Option<nat>, q: Pattern, g: string, w: string)
    requires AllIn(k, g) && w != [] && !InClass(k, w[0])
    ensures MatchPrefix([Str(lit), Group(k, lo, hi)] + q, lit + (g + w)).Some? ==>
      lo <= |g| && (hi.None? || |g| <= hi.value) && MatchPrefix(q, w).Some?
  {
    assert [Str(lit), Group(k, lo, hi)] + q == [Str(lit)] + ([Group(k, lo, hi)] + q);
    StrThen(lit, [Group(k, lo, hi)] + q, g + w);
    GroupThen(k, lo, hi, q, g, w);
  }

  /** The meaning of a pattern, independent of any matching strategy: `t` is
      one way of matching all of `p`, with `gs` the texts its groups capture. */
  ghost predicate Fits(p: Pattern, t: string, gs: seq<string>)
    decreases |p|
  {
    if p == [] then t == [] && gs == []
    else
      match p[0]
      case Str(lit) => StartsWith(t, lit) && Fits(p[1..], t[|lit|..], gs)
      case AnyChar => t != [] && t[0] != '\n' && Fits(p[1..], t[1..], gs)
      case Group(k, lo, hi) =>
        && gs != []
        && lo <= |gs[0]| && (hi.None? || |gs[0]| <= hi.value)
        && AllIn(k, gs[0]) && StartsWith(t, gs[0])
        && Fits(p[1..], t[|gs[0]|..], gs[1..])
  }

  /** Every group is followed by literal text whose first character is outside
      the group's class. Then a group can only end where its run ends, so the
      greedy run of `Step` is the one choice a backtracking matcher can make. */
  predicate Separated(p: Pattern)
  {
    forall i | 0 <= i < |p| :: p[i].Group? ==>
      i + 1 < |p| && p[i + 1].Str? && p[i + 1].text != [] && !InClass(p[i].k, p[i + 1].text[0])
  }

  lemma SeparatedTail(p: Pattern)
    requires p != [] && Separated(p)
    ensures Separated(p[1..])
  {
    forall i | 0 <= i < |p| - 1 && p[1..][i].Group?
      ensures i + 1 < |p| - 1 && p[1..][i + 1].Str? && p[1..][i + 1].text != []
      ensures !InClass(p[1..][i].k, p[1..][i + 1].text[0])
    {
      assert p[1..][i] == p[i + 1];
    }
  }

  /** What the matcher returns is a match in the sense of `Fits`. */
  lemma {:induction false} MatchPrefixSound(p: Pattern, s: string)
    requires MatchPrefix(p, s).Some?
    ensures var m := MatchPrefix(p, s).value; Fits(p, s[..m.len], m.groups)
    decreases |p|
  {
    if p != [] {
      var n := Step(p[0], s).value;
      var m := MatchPrefix(p[1..], s[n..]).value;
      MatchPrefixSound(p[1..], s[n..]);
      SoundStep(p, s, n, m.len, m.groups);
    }
  }

  /** One step of the matcher, followed by a fit of the rest, is a fit of the whole. */
  lemma SoundStep(p: Pattern, s: string, n: nat, len: nat, gs: seq<string>)
    requires p != [] && Step(p[0], s) == Some(n) && len <= |s| - n
    requires Fits(p[1..], s[n..][..len], gs)
    ensures Fits(p, s[..n + len], Captured(p[0], s[..n]) + gs)
  {
    var t := s[..n + len];
    assert t[n..] == s[n..][..len];
    assert t[..n] == s[..n];
    match p[0]
    case Str(lit) =>
      assert Captured(p[0], s[..n]) + gs == gs;
    case AnyChar =>
      assert Captured(p[0], s[..n]) + gs == gs;
    case Group(k, lo, hi) =>
      assert (Captured(p[0], s[..n]) + gs)[1..] == gs;
  }

  /** Whenever the pattern fits a prefix of `s`, the matcher finds exactly that
      prefix with exactly those captures (for separated patterns). */
  lemma {:induction false} MatchPrefixComplete(p: Pattern, t: string, gs: seq<string>, s: string)
    requires Separated(p) && Fits(p, t, gs) && StartsWith(s, t)
    ensures MatchPrefix(p, s) == Some(Match(gs, |t|))
    decreases |p|, 1
  {
    if p != [] {
      SeparatedTail(p);
      match p[0]
      case Str(lit) => CompleteAfter(p, t, gs, s, |lit|);
      case AnyChar => CompleteAfter(p, t, gs, s, 1);
      case Group(k, lo, hi) =>
        FitsGroupParts(p, t, gs);
        CompleteGroup(p, t, gs, s);
    }
  }

  /** The first token consumed `n` characters and captured nothing. */
  lemma {:induction false} CompleteAfter(p: Pattern, t: string, gs: seq<string>, s: string, n: nat)
    requires p != [] && !p[0].Group? && Separated(p[1..])
    requires n <= |t| && Step(p[0], s) == Some(n) && Fits(p[1..], t[n..], gs) && StartsWith(s, t)
    ensures MatchPrefix(p, s) == Some(Match(gs, |t|))
    decreases |p|, 0
  {
    StartsWithDrop(s, t, n);
    MatchPrefixComplete(p[1..], t[n..], gs, s[n..]);
    assert Captured(p[0], s[..n]) + gs == gs;
  }

  /** A group followed by a literal outside its class: the run ends where the group does. */
  lemma {:induction false} CompleteGroup(p: Pattern, t: string, gs: seq<string>, s: string)
    requires p != [] && p[0].Group? && Separated(p) && Separated(p[1..]) && StartsWith(s, t)
    requires gs != [] && GroupFits(p[0], gs[0]) && StartsWith(t, gs[0])
    requires Fits(p[1..], t[|gs[0]|..], gs[1..])
    ensures MatchPrefix(p, s) == Some(Match(gs, |t|))
    decreases |p|, 0
  {
    var g, rest := gs[0], t[|gs[0]|..];
    StartsWithDrop(s, t, |g|);
    MatchPrefixComplete(p[1..], rest, gs[1..], s[|g|..]);
    FitsStrHead(p[1..], rest, gs[1..]);
    assert p[1..][0] == p[1];
    StartsWithTrans(s[|g|..], rest, p[1].text);
    StartsWithTrans(s, t, g);
    GroupStep(p[0], p[1].text, g, s);
    assert [s[..|g|]] + gs[1..] == gs;
  }

  /** What a fit of a leading literal starts with. */
  lemma FitsStrHead(p: Pattern, t: string, gs: seq<string>)
    requires p != [] && p[0].Str? && Fits(p, t, gs)
    ensures StartsWith(t, p[0].text)
  {
  }

  /** A group whose text is followed by a character outside its class takes exactly that text. */
  lemma GroupStep(tok: Token, lit: string, g: string, s: string)
    requires tok.Group? && GroupFits(tok, g) && lit != [] && !InClass(tok.k, lit[0])
    requires StartsWith(s, g) && StartsWith(s[|g|..], lit)
    ensures Step(tok, s) == Some(|g|)
  {
    assert s[|g|] == s[|g|..][..|lit|][0];
    RunEndsAt(tok.k, s, g);
  }

  /** What a fit of a leading group consists of. */
  lemma FitsGroupParts(p: Pattern, t: string, gs: seq<string>)
    requires p != [] && p[0].Group? && Fits(p, t, gs)
    ensures gs != [] && GroupFits(p[0], gs[0]) && StartsWith(t, gs[0])
    ensures Fits(p[1..], t[|gs[0]|..], gs[1..])
  {
  }

  /** `g` is a text the group `tok` accepts: inside its class, of a length its count allows. */
  predicate GroupFits(tok: Token, g: string)
    requires tok.Group?
  {
    tok.min <= |g| && (tok.max.None? || |g| <= tok.max.value) && AllIn(tok.k, g)
  }

  /** The run of a class stops at the first character outside it. */
  lemma {:induction false} RunEndsAt(k: Class, s: string, g: string)
    requires StartsWith(s, g) && AllIn(k, g) && |g| < |s| && !InClass(k, s[|g|])
    ensures Run(k, s) == |g|
    decreases |g|
  {
    if g != [] {
      assert s[0] == s[..|g|][0] == g[0];
      assert s[1..][..|g| - 1] == s[..|g|][1..];
      assert s[1..][|g| - 1] == s[|g|];
      assert forall i | 0 <= i < |g| - 1 :: g[1..][i] == g[i + 1];
      RunEndsAt(k, s[1..], g[1..]);
    }
  }

  /** For a separated pattern at most one prefix of `s` fits, with one set of
      captures, so the priority rules of backtracking never come into play. */
  lemma MatchIsUnique(p: Pattern, s: string, t1: string, gs1: seq<string>, t2: string, gs2: seq<string>)
    requires Separated(p)
    requires Fits(p, t1, gs1) && StartsWith(s, t1)
    requires Fits(p, t2, gs2) && StartsWith(s, t2)
    ensures t1 == t2 && gs1 == gs2
  {
    MatchPrefixComplete(p, t1, gs1, s);
    MatchPrefixComplete(p, t2, gs2, s);
    assert t1 == s[..|t1|] && t2 == s[..|t2|];
  }

  // Building a match token by token, from the back.

  lemma FitsEnd()
    ensures Fits([], "", [])
  {
  }

  lemma FitsStr(p: Pattern, rest: string, gs: seq<string>)
    requires p != [] && p[0].Str? && Fits(p[1..], rest, gs)
    ensures Fits(p, p[0].text + rest, gs)
  {
    var t := p[0].text + rest;
    assert t[..|p[0].text|] == p[0].text && t[|p[0].text|..] == rest;
  }

  lemma FitsAny(p: Pattern, c: char, rest: string, gs: seq<string>)
    requires p != [] && p[0].AnyChar? && c != '\n' && Fits(p[1..], rest, gs)
    ensures Fits(p, [c] + rest, gs)
  {
    assert ([c] + rest)[1..] == rest;
  }

  lemma FitsGroup(p: Pattern, g: string, rest: string, gs: seq<string>)
    requires p != [] && p[0].Group? && Fits(p[1..], rest, gs)
    requires p[0].min <= |g| && (p[0].max.None? || |g| <= p[0].max.value) && AllIn(p[0].k, g)
    ensures Fits(p, g + rest, [g] + gs)
  {
    var t := g + rest;
    assert t[..|g|] == g && t[|g|..] == rest;
    assert ([g] + gs)[1..] == gs;
  }

  /** A literal and then a group, in front of a fit of the rest. */
  lemma FitsStrGroup(p: Pattern, g: string, rest: string, gs: seq<string>)
    requires |p| >= 2 && p[0].Str? && p[1].Group? && Fits(p[2..], rest, gs)
    requires p[1].min <= |g| && (p[1].max.None? || |g| <= p[1].max.value) && AllIn(p[1].k, g)
    ensures Fits(p, p[0].text + (g + rest), [g] + gs)
  {
    assert p[1..][0] == p[1] && p[1..][1..] == p[2..];
    FitsGroup(p[1..], g, rest, gs);
    FitsStr(p, g + rest, [g] + gs);
  }

  lemma {:induction false} GroupCountAppend(p: Pattern, q: Pattern)
    ensures GroupCount(p + q) == GroupCount(p) + GroupCount(q)
    decreases |p|
  {
    if p == [] {
      assert p + q == q;
    } else {
      assert (p + q)[0] == p[0] && (p + q)[1..] == p[1..] + q;
      GroupCountAppend(p[1..], q);
    }
  }

  /** A token may go in front of a separated pattern when, should it be a group,
      the pattern opens with literal text its class excludes. */
  lemma SeparatedPrepend(a: Token, p: Pattern)
    requires Separated(p)
    requires a.Group? ==> p != [] && p[0].Str? && p[0].text != [] && !InClass(a.k, p[0].text[0])
    ensures Separated([a] + p)
  {
    var ap := [a] + p;
    forall i | 0 <= i < |ap| && ap[i].Group?
      ensures i + 1 < |ap| && ap[i + 1].Str? && ap[i + 1].text != [] && !InClass(ap[i].k, ap[i + 1].text[0])
    {
      if i > 0 {
        assert ap[i] == p[i - 1] && ap[i + 1] == p[i];
      }
    }
  }

  lemma ValidTemplateAppend(a: Template, b: Template, groups: nat)
    requires ValidTemplate(a, groups) && ValidTemplate(b, groups)
    ensures ValidTemplate(a + b, groups)
  {
    forall i | 0 <= i < |a + b| && (a + b)[i].Ref? ensures (a + b)[i].n < groups {
      if i >= |a| {
        assert (a + b)[i] == b[i - |a|];
      }
    }
  }

  /** Filling in a template piece by piece. */
  lemma {:induction false} ExpandAppend(a: Template, b: Template, groups: seq<string>)
    requires ValidTemplate(a, |groups|) && ValidTemplate(b, |groups|)
    ensures ValidTemplate(a + b, |groups|)
    ensures Expand(a + b, groups) == Expand(a, groups) + Expand(b, groups)
    decreases |a|
  {
    ValidTemplateAppend(a, b, |groups|);
    if a == [] {
      assert a + b == b;
    } else {
      assert (a + b)[0] == a[0] && (a + b)[1..] == a[1..] + b;
      ExpandAppend(a[1..], b, groups);
      var head := match a[0] case Text(s) => s case Ref(n) => groups[n];
      Assoc(head, Expand(a[1..], groups), Expand(b, groups));
    }
  }

  /** Captures a template never refers to do not change its expansion. */
  lemma {:induction false} ExpandExtra(tpl: Template, groups: seq<string>, extra: seq<string>)
    requires ValidTemplate(tpl, |groups|)
    ensures ValidTemplate(tpl, |groups + extra|)
    ensures Expand(tpl, groups + extra) == Expand(tpl, groups)
    decreases |tpl|
  {
    if tpl != [] {
      ExpandExtra(tpl[1..], groups, extra);
      if tpl[0].Ref? {
        assert (groups + extra)[tpl[0].n] == groups[tpl[0].n];
      }
    }
  }

  /** Every literal of a pattern shows up in any text that fits it. */
  lemma {:induction false} FitsHasLiteral(p: Pattern, t: string, gs: seq<string>, i: nat, c: char)
    requires Fits(p, t, gs) && i < |p| && p[i].Str? && c in p[i].text
    ensures c in t
    decreases |p|
  {
    match p[0]
    case Str(lit) =>
      if i == 0 {
        assert t[..|lit|] == lit;
      } else {
        assert p[1..][i - 1] == p[i];
        FitsHasLiteral(p[1..], t[|lit|..], gs, i - 1, c);
      }
    case AnyChar =>
      assert p[1..][i - 1] == p[i];
      FitsHasLiteral(p[1..], t[1..], gs, i - 1, c);
    case Group(_, _, _) =>
      assert p[1..][i - 1] == p[i];
      FitsHasLiteral(p[1..], t[|gs[0]|..], gs[1..], i - 1, c);
  }

  /** A match needs every character of the pattern's literals. */
  lemma MatchNeedsChar(p: Pattern, s: string, i: nat, c: char)
    requires i < |p| && p[i].Str? && c in p[i].text
    ensures MatchPrefix(p, s).Some? ==> c in s
  {
    if MatchPrefix(p, s).Some? {
      var m := MatchPrefix(p, s).value;
      MatchPrefixSound(p, s);
      FitsHasLiteral(p, s[..m.len], m.groups, i, c);
    }
  }

  /** Text lacking a character of one of the pattern's literals is left as it is. */
  lemma SubWithout(p: Pattern, tpl: Template, s: string, i: nat, c: char)
    requires Anchored(p) && ValidTemplate(tpl, GroupCount(p))
    requires i < |p| && p[i].Str? && c in p[i].text && c !in s
    ensures Sub(p, tpl, s) == s
  {
    forall j | 0 <= j < |s| ensures MatchPrefix(p, s[j..]).None? {
      MatchNeedsChar(p, s[j..], i, c);
      assert c !in s[j..];
    }
    SubNoMatch(p, tpl, s);
  }

  /** Where the pattern does not match, `re.sub` copies one character and moves on. */
  lemma SubSkips(p: Pattern, tpl: Template, c: char, t: string)
    requires Anchored(p) && ValidTemplate(tpl, GroupCount(p))
    requires MatchPrefix(p, [c] + t).None?
    ensures Sub(p, tpl, [c] + t) == [c] + Sub(p, tpl, t)
  {
    assert ([c] + t)[0] == c && ([c] + t)[1..] == t;
  }

  /** Text in which the pattern's first literal never occurs is left as it is. */
  lemma SubWithoutOpening(p: Pattern, tpl: Template, s: string)
    requires Anchored(p) && ValidTemplate(tpl, GroupCount(p))
    requires !Contains(s, p[0].text)
    ensures Sub(p, tpl, s) == s
  {
    forall i | 0 <= i < |s| ensures MatchPrefix(p, s[i..]).None? {
      assert !StartsWith(s[i..], p[0].text);
    }
    SubNoMatch(p, tpl, s);
  }

  /** Every match of the pattern is non-empty, so `re.sub` only ever scans forward. */
  predicate Anchored(p: Pattern)
  {
    p != [] && p[0].Str? && p[0].text != []
  }

  /** `re.sub(p, tpl, s)`: scanning left to right, each match is replaced by the
      expanded template and scanning resumes after it; other characters are copied. */
  function Sub(p: Pattern, tpl: Template, s: string): string
    requires Anchored(p) && ValidTemplate(tpl, GroupCount(p))
    decreases |s|
  {
    if s == [] then []
    else
      match MatchPrefix(p, s)
      case Some(m) => Expand(tpl, m.groups) + Sub(p, tpl, s[m.len..])
      case None => [s[0]] + Sub(p, tpl, s[1..])
  }

  /** Text in which the pattern's first character never occurs is copied unchanged,
      and the scan carries on behind it. */
  lemma {:induction false} SubCopies(p: Pattern, tpl: Template, u: string, v: string)
    requires Anchored(p) && ValidTemplate(tpl, GroupCount(p))
    requires p[0].text[0] !in u
    ensures Sub(p, tpl, u + v) == u + Sub(p, tpl, v)
  {
    if u != [] {
      var s := u + v;
      assert s[0] == u[0] && u[0] in u;
      assert Step(p[0], s).None?;
      assert s[1..] == u[1..] + v;
      SubCopies(p, tpl, u[1..], v);
      ConsAppend(u[0], u[1..], Sub(p, tpl, v));
      assert [u[0]] + u[1..] == u;
    } else {
      assert u + v == v;
    }
  }

  /** Where the pattern fits, that text is replaced by the template filled with
      the captures, and the scan carries on right after it. */
  lemma SubReplaces(p: Pattern, tpl: Template, t: string, gs: seq<string>, v: string)
    requires Anchored(p) && ValidTemplate(tpl, GroupCount(p)) && Separated(p)
    requires Fits(p, t, gs)
    ensures |gs| == GroupCount(p)
    ensures Sub(p, tpl, t + v) == Expand(tpl, gs) + Sub(p, tpl, v)
  {
    var s := t + v;
    assert s[..|t|] == t;
    MatchPrefixComplete(p, t, gs, s);
    assert s[|t|..] == v;
  }

  /** With no match starting anywhere, `re.sub` returns its input. */
  lemma {:induction false} SubNoMatch(p: Pattern, tpl: Template, s: string)
    requires Anchored(p) && ValidTemplate(tpl, GroupCount(p))
    requires forall i | 0 <= i < |s| :: MatchPrefix(p, s[i..]).None?
    ensures Sub(p, tpl, s) == s
    decreases |s|
  {
    if s != [] {
      assert s[0..] == s;
      forall i | 0 <= i < |s| - 1 ensures MatchPrefix(p, s[1..][i..]).None? {
        assert s[1..][i..] == s[i + 1..];
      }
      SubNoMatch(p, tpl, s[1..]);
    }
  }
}
