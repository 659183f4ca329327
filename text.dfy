/** The string operations of Python that the core relies on: `str.isspace`,
    `str.strip`, `str.startswith`, substring search and `str.replace`. */
module Text {

  /** Python's `str.isspace()`; the regular-expression class `\s` of a `str`
      pattern and `str.strip()` without arguments use the same set. */
  predicate IsSpace(c: char)
  {
    || ('\t' <= c <= '\r')                  // \t \n \v \f \r
    || ('\U{1c}' <= c <= '\U{1f}')          // file, group, record and unit separators
    || c == ' ' || c == '\U{85}' || c == '\U{a0}' || c == '\U{1680}'
    || ('\U{2000}' <= c <= '\U{200a}')
    || c == '\U{2028}' || c == '\U{2029}' || c == '\U{202f}' || c == '\U{205f}' || c == '\U{3000}'
  }

  predicate AllSpace(s: string)
  {
    forall i | 0 <= i < |s| :: IsSpace(s[i])
  }

  /** Neither the first nor the last character is whitespace. */
  predicate Trimmed(s: string)
  {
    s == [] || (!IsSpace(s[0]) && !IsSpace(s[|s| - 1]))
  }

  /** `str.lstrip()`: the suffix left after dropping every leading whitespace character. */
  function TrimStart(s: string): (r: string)
    ensures |r| <= |s| && r == s[|s| - |r|..]
    ensures AllSpace(s[..|s| - |r|])
    ensures r == [] || !IsSpace(r[0])
  {
    if s != [] && IsSpace(s[0]) then
      var r := TrimStart(s[1..]);
      assert s[..|s| - |r|] == [s[0]] + s[1..][..|s| - 1 - |r|];
      r
    else s
  }

  /** `str.rstrip()`: the prefix left after dropping every trailing whitespace character. */
  function TrimEnd(s: string): (r: string)
    ensures |r| <= |s| && r == s[..|r|]
    ensures AllSpace(s[|r|..])
    ensures r == [] || !IsSpace(r[|r| - 1])
  {
    if s != [] && IsSpace(s[|s| - 1]) then
      var r := TrimEnd(s[..|s| - 1]);
      assert s[|r|..] == s[..|s| - 1][|r|..] + [s[|s| - 1]];
      r
    else s
  }

  /** `s` is `r` with the whitespace `left` in front and the whitespace `right` behind. */
  ghost predicate Padded(s: string, left: string, r: string, right: string)
  {
    AllSpace(left) && AllSpace(right) && s == left + r + right
  }

  /** `str.strip()`: `str.lstrip()` then `str.rstrip()`; what is left starts and ends
      with a character that is not whitespace (see `StripPads` for the rest). */
  function Strip(s: string): (r: string)
    ensures Trimmed(r)
  {
    var t := TrimStart(s);
    var r := TrimEnd(t);
    assert r != [] ==> r[0] == t[0];
    r
  }

  /** The input of `str.strip()` is its result padded with whitespace on both sides. */
  lemma {:induction false} StripPads(s: string)
    ensures exists left, right :: Padded(s, left, Strip(s), right)
  {
    var t := TrimStart(s);
    var r := TrimEnd(t);
    var left, right := s[..|s| - |t|], t[|r|..];
    assert Padded(s, left, r, right) by {
      PaddedAround(s, t, r);
    }
    assert Padded(s, left, Strip(s), right);
  }

  /** A prefix `r` of a suffix `t` of `s`, with only whitespace before `t` and after
      `r`, is padded to make `s`. */
  lemma PaddedAround(s: string, t: string, r: string)
    requires |t| <= |s| && t == s[|s| - |t|..] && AllSpace(s[..|s| - |t|])
    requires |r| <= |t| && r == t[..|r|] && AllSpace(t[|r|..])
    ensures Padded(s, s[..|s| - |t|], r, t[|r|..])
  {
    assert s == s[..|s| - |t|] + t;
    assert t == r + t[|r|..];
  }

  /** Stripping text whose whitespace padding is known gives back the text. */
  lemma {:induction false} StripPadded(left: string, t: string, right: string)
    requires AllSpace(left) && AllSpace(right) && Trimmed(t)
    ensures Strip(left + t + right) == t
  {
    var s := left + t + right;
    if t == [] {
      assert s == (left + right) + [];
      TrimStartPadded(left + right, []);
    } else {
      assert s == left + (t + right);
      TrimStartPadded(left, t + right);
      TrimEndPadded(t, right);
    }
  }

  /** Text without outer whitespace is its own strip. */
  lemma StripTrimmed(s: string)
    requires Trimmed(s)
    ensures Strip(s) == s
  {
    StripPadded("", s, "");
    assert "" + s + "" == s;
  }

  lemma {:induction false} TrimStartPadded(left: string, t: string)
    requires AllSpace(left) && (t == [] || !IsSpace(t[0]))
    ensures TrimStart(left + t) == t
  {
    if left != [] {
      assert (left + t)[1..] == left[1..] + t;
      TrimStartPadded(left[1..], t);
    } else {
      assert left + t == t;
    }
  }

  lemma {:induction false} TrimEndPadded(t: string, right: string)
    requires AllSpace(right) && (t == [] || !IsSpace(t[|t| - 1]))
    ensures TrimEnd(t + right) == t
  {
    if right != [] {
      assert (t + right)[..|t + right| - 1] == t + right[..|right| - 1];
      TrimEndPadded(t, right[..|right| - 1]);
    } else {
      assert t + right == t;
    }
  }

  /** `s.startswith(p)`. */
  predicate StartsWith(s: string, p: string)
  {
    |p| <= |s| && s[..|p|] == p
  }

  /** A string that starts with `p` agrees with `p` at each of `p`'s positions. */
  lemma StartsWithAt(s: string, p: string, i: nat)
    requires i < |p|
    ensures StartsWith(s, p) ==> s[i] == p[i]
  {
    if StartsWith(s, p) {
      assert s[..|p|][i] == s[i];
    }
  }

  /** Dropping the same number of characters from a string and from a prefix of it keeps the prefix relation. */
  lemma StartsWithDrop(s: string, p: string, n: nat)
    requires StartsWith(s, p) && n <= |p|
    ensures StartsWith(s[n..], p[n..])
  {
    assert s[n..][..|p| - n] == s[..|p|][n..];
  }

  lemma StartsWithTrans(s: string, t: string, p: string)
    requires StartsWith(s, t) && StartsWith(t, p)
    ensures StartsWith(s, p)
  {
    assert s[..|p|] == s[..|t|][..|p|];
  }

  /** `p in s` for strings: some position of `s` starts an occurrence of `p`. */
  predicate Contains(s: string, p: string)
  {
    exists k :: 0 <= k <= |s| && StartsWith(s[k..], p)
  }

  /** An occurrence of a non-empty `p` starts with `p`'s first character. */
  lemma ContainsFirstChar(s: string, p: string)
    requires p != [] && p[0] !in s
    ensures !Contains(s, p)
  {
    forall k | 0 <= k <= |s| ensures !StartsWith(s[k..], p) {
      if k < |s| {
        assert s[k..][0] == s[k] && s[k] in s;
      }
    }
  }

  /** A stretch of a string without an occurrence has none either. */
  lemma AbsentInInfix(s: string, i: nat, j: nat, p: string)
    requires i <= j <= |s| && !Contains(s, p)
    ensures !Contains(s[i..j], p)
  {
    forall k | 0 <= k <= j - i ensures !StartsWith(s[i..j][k..], p) {
      assert !StartsWith(s[i + k..], p);
      if |p| <= j - i - k {
        assert s[i..j][k..][..|p|] == s[i + k..][..|p|];
      }
    }
  }

  /** Stripping cannot create an occurrence. */
  lemma StripKeepsAbsent(s: string, p: string)
    requires !Contains(s, p)
    ensures !Contains(Strip(s), p)
  {
    var r := Strip(s);
    StripPads(s);
    var left, right :| Padded(s, left, r, right);
    assert s[|left|..|left| + |r|] == r;
    AbsentInInfix(s, |left|, |left| + |r|, p);
  }

  /** A string without an occurrence has none after its first character either. */
  lemma AbsentInTail(s: string, p: string)
    requires s != [] && !Contains(s, p)
    ensures !Contains(s[1..], p)
  {
    forall k | 0 <= k <= |s| - 1 ensures !StartsWith(s[1..][k..], p) {
      assert s[1..][k..] == s[k + 1..];
      assert !StartsWith(s[k + 1..], p);
    }
  }

  /** `s.replace(p, r)`: occurrences of `p` are replaced left to right, without overlap. */
  function ReplaceAll(s: string, p: string, r: string): (t: string)
    requires p != []
    decreases |s|
  {
    if |s| < |p| then s
    else if s[..|p|] == p then r + ReplaceAll(s[|p|..], p, r)
    else [s[0]] + ReplaceAll(s[1..], p, r)
  }

  /** Replacing leaves text alone that contains no occurrence. */
  lemma {:induction false} ReplaceAllAbsent(s: string, p: string, r: string)
    requires p != [] && !Contains(s, p)
    ensures ReplaceAll(s, p, r) == s
  {
    if |s| >= |p| {
      assert s[0..] == s;
      assert !StartsWith(s[0..], p);
      AbsentInTail(s, p);
      ReplaceAllAbsent(s[1..], p, r);
      assert [s[0]] + s[1..] == s;
    }
  }

  /** A prefix holding no character that starts `p` is copied unchanged. */
  lemma {:induction false} ReplaceAllSkips(u: string, v: string, p: string, r: string)
    requires p != [] && p[0] !in u
    ensures ReplaceAll(u + v, p, r) == u + ReplaceAll(v, p, r)
  {
    if u != [] {
      var s := u + v;
      assert s[0] == u[0] && u[0] in u;
      assert s[1..] == u[1..] + v;
      if |s| < |p| {
        assert ReplaceAll(v, p, r) == v;
      } else {
        assert s[..|p|][0] == s[0];
        ReplaceAllSkips(u[1..], v, p, r);
        assert [u[0]] + (u[1..] + ReplaceAll(v, p, r)) == u + ReplaceAll(v, p, r);
      }
    } else {
      assert u + v == v;
    }
  }

  const Fence: string := "```"

  /** After `replace("```", "")` a leading backtick was a backtick of the input too. */
  lemma {:induction false} FenceRemovalFirst(s: string)
    ensures var t := ReplaceAll(s, Fence, "");
            t != [] && t[0] == '`' ==> s != [] && s[0] == '`'
  {
    if |s| >= 3 && s[..3] == Fence {
      assert s[0] == '`';
    }
  }

  /** ... and two leading backticks were two leading backticks of the input. */
  lemma {:induction false} FenceRemovalFirstTwo(s: string)
    ensures var t := ReplaceAll(s, Fence, "");
            |t| >= 2 && t[0] == '`' && t[1] == '`' ==> |s| >= 2 && s[0] == '`' && s[1] == '`'
  {
    if |s| >= 3 && s[..3] == Fence {
      assert s[0] == '`' && s[1] == '`';
    } else if |s| >= 3 {
      FenceRemovalFirst(s[1..]);
    }
  }

  /** `replace("```", "")` leaves no fence behind, even where deleting one fence
      brings backticks together. */
  lemma {:induction false} FenceRemovalComplete(s: string)
    ensures !Contains(ReplaceAll(s, Fence, ""), Fence)
    decreases |s|
  {
    var t := ReplaceAll(s, Fence, "");
    if |s| < 3 {
      forall k | 0 <= k <= |t| ensures !StartsWith(t[k..], Fence) { }
    } else if s[..3] == Fence {
      FenceRemovalComplete(s[3..]);
      assert t == "" + ReplaceAll(s[3..], Fence, "") == ReplaceAll(s[3..], Fence, "");
    } else {
      var rest := ReplaceAll(s[1..], Fence, "");
      FenceRemovalComplete(s[1..]);
      assert t == [s[0]] + rest;
      forall k | 0 <= k <= |t| ensures !StartsWith(t[k..], Fence) {
        if k == 0 {
          FenceRemovalFirstTwo(s[1..]);
          assert s[..3] == [s[0], s[1], s[2]];
        } else {
          assert t[k..] == rest[k - 1..];
          assert !StartsWith(rest[k - 1..], Fence);
        }
      }
    }
  }
}
