/**
 * The JavaScript string operations the response cleaners use:
 * `trim`, `split("\n")`, global `replace` of a literal pattern (optionally
 * ASCII case-insensitive, as the `/gi` flag is for the letters of "json"),
 * removal of control characters, `indexOf`, `lastIndexOf` and `slice`.
 */
module JsStrings {

  /** The WhiteSpace and LineTerminator code points: what `trim()` and `\s` match. */
  predicate IsWhitespace(c: char)
  {
    var n := c as int;
    n == 0x09 || n == 0x0A || n == 0x0B || n == 0x0C || n == 0x0D || n == 0x20 ||
    n == 0xA0 || n == 0x1680 || (0x2000 <= n <= 0x200A) || n == 0x2028 || n == 0x2029 ||
    n == 0x202F || n == 0x205F || n == 0x3000 || n == 0xFEFF
  }

  /** No blank at either end. */
  predicate Trimmed(s: string)
  {
    s == [] || (!IsWhitespace(s[0]) && !IsWhitespace(s[|s| - 1]))
  }

  /** Drops the leading whitespace: what is left is a suffix that starts with a non-blank. */
  function TrimStart(s: string): (r: string)
    ensures |r| <= |s| && r == s[|s| - |r|..]
    ensures forall i :: 0 <= i < |s| - |r| ==> IsWhitespace(s[i])
    ensures r == [] || !IsWhitespace(r[0])
  {
    if s != [] && IsWhitespace(s[0]) then TrimStart(s[1..]) else s
  }

  /** Drops the trailing whitespace: what is left is a prefix that ends with a non-blank. */
  function TrimEnd(s: string): (r: string)
    ensures |r| <= |s| && r == s[..|r|]
    ensures forall i :: |r| <= i < |s| ==> IsWhitespace(s[i])
    ensures r == [] || !IsWhitespace(r[|r| - 1])
  {
    if s != [] && IsWhitespace(s[|s| - 1]) then TrimEnd(s[..|s| - 1]) else s
  }

  /** `s.trim()`: the blanks at both ends dropped; a string without blank ends is kept as is. */
  function Trim(s: string): (r: string)
    ensures |r| <= |s|
    ensures Trimmed(r)
    ensures Trimmed(s) ==> r == s
  {
    TrimEnd(TrimStart(s))
  }

  /** The trimmed string is the piece of `s` that starts after the leading blanks. */
  lemma TrimIsSlice(s: string)
    ensures var r, a := Trim(s), |s| - |TrimStart(s)|;
      a + |r| <= |s| && r == s[a..a + |r|]
  {
  }

  /** Everything outside the trimmed piece is blank. */
  lemma {:induction false} TrimDropsOnlyBlanks(s: string)
    ensures var r, a := Trim(s), |s| - |TrimStart(s)|;
      && (forall i :: 0 <= i < a ==> IsWhitespace(s[i]))
      && (forall i :: a + |r| <= i < |s| ==> IsWhitespace(s[i]))
  {
    var t := TrimStart(s);
    var r := TrimEnd(t);
    var a := |s| - |t|;
    assert r == Trim(s);
    forall i | a + |r| <= i < |s| ensures IsWhitespace(s[i]) {
      assert IsWhitespace(t[i - a]);
      assert t[i - a] == s[i];
    }
  }

  /** Trimming keeps only characters that were there. */
  lemma TrimKeepsChars(s: string)
    ensures forall c :: c in Trim(s) ==> c in s
  {
    var a := TrimStart(s);
    var b := TrimEnd(a);
    assert forall i :: 0 <= i < |b| ==> b[i] == a[i];
    assert forall i :: 0 <= i < |a| ==> a[i] == s[|s| - |a| + i];
  }

  /** Trimming twice is trimming once. */
  lemma TrimIdempotent(s: string)
    ensures Trim(Trim(s)) == Trim(s)
  {
    var r := Trim(s);
    if r != [] {
      assert TrimStart(r) == r;
      assert TrimEnd(r) == r;
    }
  }

  /** `s.split("\n")`: the pieces between line breaks, at least one. */
  function SplitLines(s: string): (r: seq<string>)
    ensures |r| >= 1
    ensures forall i :: 0 <= i < |r| ==> '\n' !in r[i]
  {
    if s == [] then [[]]
    else
      var rest := SplitLines(s[1..]);
      if s[0] == '\n' then [[]] + rest
      else [[s[0]] + rest[0]] + rest[1..]
  }

  /** `parts.join("\n")` */
  function JoinLines(parts: seq<string>): string
    requires |parts| >= 1
  {
    if |parts| == 1 then parts[0] else parts[0] + "\n" + JoinLines(parts[1..])
  }

  /** Splitting at line breaks loses nothing: joining the pieces gives the text back. */
  lemma {:induction false} JoinSplitLines(s: string)
    ensures JoinLines(SplitLines(s)) == s
  {
    if s != [] {
      var rest := SplitLines(s[1..]);
      JoinSplitLines(s[1..]);
      if s[0] == '\n' {
        assert SplitLines(s)[1..] == rest;
        assert JoinLines(SplitLines(s)) == "" + "\n" + JoinLines(rest);
        assert s == "\n" + s[1..];
      } else {
        var first := [s[0]] + rest[0];
        assert SplitLines(s) == [first] + rest[1..];
        if |rest| == 1 {
          assert JoinLines(SplitLines(s)) == first;
          assert s == [s[0]] + s[1..];
        } else {
          assert SplitLines(s)[1..] == rest[1..];
          assert JoinLines(rest) == rest[0] + "\n" + JoinLines(rest[1..]);
          calc {
            JoinLines(SplitLines(s));
            first + "\n" + JoinLines(rest[1..]);
            [s[0]] + (rest[0] + "\n" + JoinLines(rest[1..]));
            [s[0]] + s[1..];
            s;
          }
        }
      }
    }
  }

  /** Case folding of the `/i` flag, which for ASCII letters is lower-casing. */
  function Fold(c: char, ignoreCase: bool): char
  {
    if ignoreCase && 'A' <= c <= 'Z' then (c as int + 32) as char else c
  }

  /** `s` starts with `pat`, comparing characters under `Fold`. */
  predicate StartsWith(s: string, pat: string, ignoreCase: bool)
  {
    |pat| <= |s| && forall k :: 0 <= k < |pat| ==> Fold(s[k], ignoreCase) == Fold(pat[k], ignoreCase)
  }

  /**
   * `s.replace(/pat/g, rep)` for a pattern with no special characters:
   * scanning from the left, every match is replaced and scanning resumes
   * after it.
   */
  function ReplaceAll(s: string, pat: string, rep: string, ignoreCase: bool): (r: string)
    requires pat != []
    ensures forall c :: c in r ==> c in s || c in rep
    ensures (forall c :: c in s ==> Fold(c, ignoreCase) != Fold(pat[0], ignoreCase)) ==> r == s
    decreases |s|
  {
    if s == [] then []
    else if StartsWith(s, pat, ignoreCase) then rep + ReplaceAll(s[|pat|..], pat, rep, ignoreCase)
    else [s[0]] + ReplaceAll(s[1..], pat, rep, ignoreCase)
  }

  /** A prefix none of whose characters can start a match passes through a global replace unchanged. */
  lemma {:induction false} ReplaceAllPrefix(a: string, b: string, pat: string, rep: string, ignoreCase: bool)
    requires pat != []
    requires forall i :: 0 <= i < |a| ==> Fold(a[i], ignoreCase) != Fold(pat[0], ignoreCase)
    ensures ReplaceAll(a + b, pat, rep, ignoreCase) == a + ReplaceAll(b, pat, rep, ignoreCase)
    decreases |a|
  {
    if a == [] {
      assert a + b == b;
    } else {
      ReplaceAllPrefixStep(a, b, pat, rep, ignoreCase);
      ReplaceAllPrefix(a[1..], b, pat, rep, ignoreCase);
      assert a == [a[0]] + a[1..];
    }
  }

  /** The first character of a prefix that cannot start a match is copied. */
  lemma ReplaceAllPrefixStep(a: string, b: string, pat: string, rep: string, ignoreCase: bool)
    requires pat != [] && a != [] && Fold(a[0], ignoreCase) != Fold(pat[0], ignoreCase)
    ensures ReplaceAll(a + b, pat, rep, ignoreCase) == [a[0]] + ReplaceAll(a[1..] + b, pat, rep, ignoreCase)
  {
    var s := a + b;
    assert s[0] == a[0] && s[1..] == a[1..] + b;
    ReplaceAllMiss(s, pat, rep, ignoreCase);
  }

  /** A text whose first character cannot start a match keeps that character. */
  lemma ReplaceAllMiss(s: string, pat: string, rep: string, ignoreCase: bool)
    requires pat != [] && s != [] && Fold(s[0], ignoreCase) != Fold(pat[0], ignoreCase)
    ensures ReplaceAll(s, pat, rep, ignoreCase) == [s[0]] + ReplaceAll(s[1..], pat, rep, ignoreCase)
  {
    assert !StartsWith(s, pat, ignoreCase);
  }

  /** A text that opens with the pattern has that occurrence replaced. */
  lemma ReplaceAllMatch(b: string, pat: string, rep: string, ignoreCase: bool)
    requires pat != []
    ensures ReplaceAll(pat + b, pat, rep, ignoreCase) == rep + ReplaceAll(b, pat, rep, ignoreCase)
  {
    var s := pat + b;
    assert StartsWith(s, pat, ignoreCase);
    assert s[|pat|..] == b;
  }

  /** `raw` is a body without backticks wrapped in a "```json" ... "```" fence. */
  predicate FencedJson(raw: string)
  {
    |raw| >= 10 && raw[..7] == "```json" && raw[|raw| - 3..] == "```" && '`' !in raw[7..|raw| - 3]
  }

  /**
   * Dropping "```json" (any case) and then "```" from a reply wrapped in a
   * "```json" ... "```" fence leaves exactly the body, when the body holds
   * no backtick.
   */
  lemma UnwrapFence(body: string)
    requires '`' !in body
    ensures ReplaceAll(ReplaceAll("```json" + body + "```", "```json", "", true), "```", "", false) == body
  {
    var open, close := "```json", "```";
    assert open + body + close == open + (body + close);
    ReplaceAllMatch(body + close, open, "", true);
    ReplaceAllPrefix(body, close, open, "", true);
    assert ReplaceAll(close, open, "", true) == close;
    assert ReplaceAll(open + body + close, open, "", true) == body + close;
    ReplaceAllPrefix(body, close, close, "", false);
    assert close == close + [];
    ReplaceAllMatch([], close, "", false);
    assert body + [] == body;
  }

  /** The Markdown code-fence marker. */
  const Fence: string := "```"

  /** Dropping every "```json" and then every "```" leaves a text without backticks as it is. */
  lemma NoTicksNoFences(s: string)
    requires '`' !in s
    ensures ReplaceAll(ReplaceAll(s, "```json", "", true), Fence, "", false) == s
  {
    forall i | 0 <= i < |s| ensures Fold(s[i], true) != Fold('`', true) {
      assert s[i] in s;
    }
    assert s + [] == s;
    assert ReplaceAll(s, "```json", "", true) == s by {
      ReplaceAllPrefix(s, [], "```json", "", true);
    }
    assert ReplaceAll(s, Fence, "", false) == s by {
      ReplaceAllPrefix(s, [], Fence, "", false);
    }
  }

  /** A body without backticks, wrapped in the fences, is a fenced reply whose inside is that body. */
  lemma FencedAround(body: string)
    requires '`' !in body
    ensures var raw := "```json" + body + "```";
      FencedJson(raw) && raw[7..|raw| - 3] == body && Trimmed(raw)
  {
    var raw := "```json" + body + "```";
    assert raw[..7] == "```json";
    assert raw[|raw| - 3..] == "```";
    assert raw[7..|raw| - 3] == body;
  }

  /** Dropping the fences of a "```json" ... "```" reply leaves exactly what lies between them. */
  lemma FencedJsonUnwraps(s: string)
    requires FencedJson(s)
    ensures ReplaceAll(ReplaceAll(s, "```json", "", true), Fence, "", false) == s[7..|s| - 3]
  {
    FencedSplit(s);
    UnwrapFenceOf(s, s[7..|s| - 3]);
  }

  /** A fenced reply is the opening fence, its body and the closing fence. */
  lemma FencedSplit(s: string)
    requires FencedJson(s)
    ensures s == "```json" + s[7..|s| - 3] + "```"
  {
    assert s == s[..7] + s[7..|s| - 3] + s[|s| - 3..];
  }

  /** `UnwrapFence` for a reply already known to be the fenced body. */
  lemma UnwrapFenceOf(s: string, body: string)
    requires '`' !in body && s == "```json" + body + "```"
    ensures ReplaceAll(ReplaceAll(s, "```json", "", true), Fence, "", false) == body
  {
    UnwrapFence(body);
  }

  /** Three backticks in a row start at offset `i` of `s`. */
  predicate FenceAt(s: string, i: int)
  {
    0 <= i < |s| - 2 && s[i] == '`' && s[i + 1] == '`' && s[i + 2] == '`'
  }

  /** No three backticks in a row anywhere in `s`. */
  predicate NoFence(s: string)
  {
    forall i :: 0 <= i < |s| - 2 ==> !FenceAt(s, i)
  }

  /** The number of backticks `s` starts with. */
  function LeadTicks(s: string): (n: nat)
    ensures n <= |s|
  {
    if s != [] && s[0] == '`' then 1 + LeadTicks(s[1..]) else 0
  }

  lemma NoFenceSlice(s: string, a: nat, b: nat)
    requires a <= b <= |s| && NoFence(s)
    ensures NoFence(s[a..b])
  {
    var t := s[a..b];
    forall i | 0 <= i < |t| - 2 ensures !FenceAt(t, i) {
      assert t[i] == s[a + i] && t[i + 1] == s[a + i + 1] && t[i + 2] == s[a + i + 2];
      assert !FenceAt(s, a + i);
    }
  }
  /** A piece `r` found at offset `a` of a text with no fence has none either. */
  lemma NoFencePiece(s: string, a: nat, r: string)
    requires a + |r| <= |s| && NoFence(s) && r == s[a..a + |r|]
    ensures NoFence(r)
  {
    NoFenceSlice(s, a, a + |r|);
  }


  /** A string with no fence starts with at most two backticks. */
  lemma NoFenceFewLeadTicks(s: string)
    requires NoFence(s)
    ensures LeadTicks(s) <= 2
  {
    if s != [] && s[0] == '`' {
      var t := s[1..];
      if t != [] && t[0] == '`' {
        assert t[1..] == s[2..];
        if |s| > 2 { assert !FenceAt(s, 0); }
        assert LeadTicks(s[2..]) == 0;
      }
    }
  }

  lemma LeadTicksCons(c: char, u: string)
    ensures LeadTicks([c] + u) == if c == '`' then 1 + LeadTicks(u) else 0
  {
    assert ([c] + u)[1..] == u;
  }

  lemma LeadTicksFence(t: string)
    requires StartsWith(t, Fence, false)
    ensures LeadTicks(t) == 3 + LeadTicks(t[3..])
  {
    assert Fold(t[0], false) == Fold(Fence[0], false);
    assert Fold(t[1], false) == Fold(Fence[1], false);
    assert Fold(t[2], false) == Fold(Fence[2], false);
    assert t[1..][1..] == t[2..] && t[2..][1..] == t[3..];
    calc {
      LeadTicks(t);
      1 + LeadTicks(t[1..]);
      2 + LeadTicks(t[2..]);
      3 + LeadTicks(t[3..]);
    }
  }

  /** A string that starts with a backtick but not with a fence starts with at most two. */
  lemma ShortTickRun(t: string)
    requires t != [] && t[0] == '`' && !StartsWith(t, Fence, false)
    ensures LeadTicks(t) <= 2
  {
    var u := t[1..];
    if u != [] && u[0] == '`' {
      assert u[1..] == t[2..];
      if |t| > 2 {
        assert Fold(t[0], false) == Fence[0] && Fold(t[1], false) == Fence[1];
        assert t[2] != '`';
      }
      assert LeadTicks(t[2..]) == 0;
    }
  }

  /** A leading run of at most one backtick leaves no room for two. */
  lemma NoTwoTicks(u: string)
    requires LeadTicks(u) <= 1 && |u| >= 2
    ensures !(u[0] == '`' && u[1] == '`')
  {
    if u[0] == '`' {
      assert LeadTicks(u) == 1 + LeadTicks(u[1..]);
      assert u[1..][0] == u[1];
    }
  }

  /** Prefixing a string with no fence by one character that is not a backtick keeps it fence-free. */
  lemma ConsNoFence(c: char, u: string)
    requires NoFence(u)
    requires c == '`' ==> LeadTicks(u) <= 1
    ensures NoFence([c] + u)
  {
    var r := [c] + u;
    forall i | 0 <= i < |r| - 2 ensures !FenceAt(r, i) {
      if i == 0 {
        if c == '`' { NoTwoTicks(u); }
      } else {
        assert r[i] == u[i - 1] && r[i + 1] == u[i] && r[i + 2] == u[i + 1];
        assert !FenceAt(u, i - 1);
      }
    }
  }

  /** Removing every "```" shrinks the leading run of n backticks to n % 3 of them. */
  lemma {:induction false} RemoveFencesLeadTicks(t: string)
    ensures LeadTicks(ReplaceAll(t, Fence, "", false)) == LeadTicks(t) % 3
    decreases |t|
  {
    var r := ReplaceAll(t, Fence, "", false);
    if t == [] {
      assert r == [];
    } else if StartsWith(t, Fence, false) {
      RemoveFencesLeadTicks(t[3..]);
      LeadTicksFence(t);
      assert |Fence| == 3;
      assert r == ReplaceAll(t[3..], Fence, "", false);
      var k := LeadTicks(t[3..]);
      ModThree(k);
      assert LeadTicks(r) == k % 3 == LeadTicks(t) % 3;
    } else {
      RemoveFencesLeadTicks(t[1..]);
      var u := ReplaceAll(t[1..], Fence, "", false);
      assert r == [t[0]] + u;
      LeadTicksCons(t[0], u);
      LeadTicksCons(t[0], t[1..]);
      assert t == [t[0]] + t[1..];
      if t[0] == '`' {
        ShortTickRun(t);
        var k := LeadTicks(t[1..]);
        ModThree(k);
        ModThree(1 + k);
        assert LeadTicks(r) == 1 + LeadTicks(u) == 1 + k == LeadTicks(t);
      } else {
        assert LeadTicks(r) == 0 == LeadTicks(t);
      }
    }
  }

  lemma ModThree(k: nat)
    ensures (3 + k) % 3 == k % 3
    ensures k <= 2 ==> k % 3 == k
  {
  }

  /**
   * Removing every "```" leaves no "```" behind: runs of backticks shrink
   * below three and never merge.
   */
  lemma {:induction false} RemoveFencesLeavesNone(t: string)
    ensures NoFence(ReplaceAll(t, Fence, "", false))
    decreases |t|
  {
    if t != [] {
      if StartsWith(t, Fence, false) {
        RemoveFencesLeavesNone(t[3..]);
        assert |Fence| == 3;
        assert ReplaceAll(t, Fence, "", false) == ReplaceAll(t[3..], Fence, "", false);
      } else {
        RemoveFencesLeavesNone(t[1..]);
        RemoveFencesLeadTicks(t[1..]);
        var u := ReplaceAll(t[1..], Fence, "", false);
        assert ReplaceAll(t, Fence, "", false) == [t[0]] + u;
        if t[0] == '`' {
          LeadTicksCons(t[0], t[1..]);
          assert t == [t[0]] + t[1..];
          ShortTickRun(t);
        }
        ConsNoFence(t[0], u);
      }
    }
  }

  /**
   * Replacing a pattern that does not start with a backtick by a non-empty
   * text without backticks creates no fence and keeps the leading run.
   */
  lemma {:induction false} ReplaceKeepsNoFence(t: string, pat: string, rep: string)
    requires pat != [] && pat[0] != '`'
    requires rep != [] && '`' !in rep
    requires NoFence(t)
    ensures NoFence(ReplaceAll(t, pat, rep, false))
    ensures LeadTicks(ReplaceAll(t, pat, rep, false)) == LeadTicks(t)
    decreases |t|
  {
    if t != [] {
      var r := ReplaceAll(t, pat, rep, false);
      if StartsWith(t, pat, false) {
        NoFenceSlice(t, |pat|, |t|);
        assert t[|pat|..|t|] == t[|pat|..];
        ReplaceKeepsNoFence(t[|pat|..], pat, rep);
        var v := ReplaceAll(t[|pat|..], pat, rep, false);
        assert r == rep + v;
        forall i | 0 <= i < |r| - 2 ensures !FenceAt(r, i) {
          if i < |rep| {
            assert r[i] == rep[i];
          } else {
            assert r[i] == v[i - |rep|] && r[i + 1] == v[i - |rep| + 1] && r[i + 2] == v[i - |rep| + 2];
            assert !FenceAt(v, i - |rep|);
          }
        }
        assert r[0] == rep[0];
      } else {
        NoFenceSlice(t, 1, |t|);
        assert t[1..|t|] == t[1..];
        ReplaceKeepsNoFence(t[1..], pat, rep);
        var u := ReplaceAll(t[1..], pat, rep, false);
        assert r == [t[0]] + u;
        if t[0] == '`' {
          NoFenceFewLeadTicks(t);
          assert LeadTicks(r) == 1 + LeadTicks(u) by { assert r[1..] == u; }
        }
        ConsNoFence(t[0], u);
      }
    }
  }

  /** A backslash followed by the letter n starts at offset `i` of `s`: an escaped line break. */
  predicate EscapedNewlineAt(s: string, i: int)
  {
    0 <= i < |s| - 1 && s[i] == '\\' && s[i + 1] == 'n'
  }

  /** No escaped line break anywhere in `s`. */
  predicate NoEscapedNewline(s: string)
  {
    forall i :: 0 <= i < |s| - 1 ==> !EscapedNewlineAt(s, i)
  }

  lemma NoEscapedNewlineSlice(s: string, a: nat, b: nat)
    requires a <= b <= |s| && NoEscapedNewline(s)
    ensures NoEscapedNewline(s[a..b])
  {
    var t := s[a..b];
    forall i | 0 <= i < |t| - 1 ensures !EscapedNewlineAt(t, i) {
      assert t[i] == s[a + i] && t[i + 1] == s[a + i + 1];
      assert !EscapedNewlineAt(s, a + i);
    }
  }
  /** A piece `r` found at offset `a` of a text with no escaped line break has none either. */
  lemma NoEscapedNewlinePiece(s: string, a: nat, r: string)
    requires a + |r| <= |s| && NoEscapedNewline(s) && r == s[a..a + |r|]
    ensures NoEscapedNewline(r)
  {
    NoEscapedNewlineSlice(s, a, a + |r|);
  }


  /**
   * Each escaped line break becomes a real one: the text before the first
   * escape is kept, the escape is replaced, and the rest is treated alike.
   */
  lemma UnescapeFirst(a: string, b: string)
    requires '\\' !in a
    ensures ReplaceAll(a + "\\n" + b, "\\n", "\n", false) == a + "\n" + ReplaceAll(b, "\\n", "\n", false)
  {
    forall i | 0 <= i < |a| ensures Fold(a[i], false) != Fold('\\', false) {
      assert a[i] in a;
    }
    assert a + "\\n" + b == a + ("\\n" + b);
    ReplaceAllPrefix(a, "\\n" + b, "\\n", "\n", false);
    ReplaceAllMatch(b, "\\n", "\n", false);
    assert a + ("\n" + ReplaceAll(b, "\\n", "\n", false)) == a + "\n" + ReplaceAll(b, "\\n", "\n", false);
  }

  /**
   * Turning every escaped line break into a real one leaves none behind: a
   * backslash that is kept is followed by something other than an n.
   */
  lemma {:induction false} UnescapeLeavesNone(t: string)
    ensures NoEscapedNewline(ReplaceAll(t, "\\n", "\n", false))
    decreases |t|
  {
    if t != [] {
      var r := ReplaceAll(t, "\\n", "\n", false);
      if StartsWith(t, "\\n", false) {
        UnescapeLeavesNone(t[2..]);
        var v := ReplaceAll(t[2..], "\\n", "\n", false);
        assert r == "\n" + v;
        forall i | 0 <= i < |r| - 1 ensures !EscapedNewlineAt(r, i) {
          if i > 0 {
            assert r[i] == v[i - 1] && r[i + 1] == v[i];
            assert !EscapedNewlineAt(v, i - 1);
          }
        }
      } else {
        UnescapeLeavesNone(t[1..]);
        var u := ReplaceAll(t[1..], "\\n", "\n", false);
        assert r == [t[0]] + u;
        forall i | 0 <= i < |r| - 1 ensures !EscapedNewlineAt(r, i) {
          if i > 0 {
            assert r[i] == u[i - 1] && r[i + 1] == u[i];
            assert !EscapedNewlineAt(u, i - 1);
          } else if t[0] == '\\' {
            assert Fold(t[0], false) == Fold("\\n"[0], false);
            assert t[1] != 'n';
            var w := t[1..];
            if StartsWith(w, "\\n", false) {
              assert u[0] == '\n';
            } else {
              assert u[0] == w[0] == t[1];
            }
          }
        }
      }
    }
  }

  /** A control character, U+0000 to U+001F. */
  predicate IsControl(c: char)
  {
    c as int < 0x20
  }

  /** `s.replace(/[\u0000-\u001F]+/g, "")` */
  function RemoveControlChars(s: string): (r: string)
    ensures |r| <= |s|
    ensures forall c :: c in r <==> c in s && !IsControl(c)
    ensures |s| == 1 ==> r == (if IsControl(s[0]) then [] else s)
    ensures (forall c :: c in s ==> !IsControl(c)) ==> r == s
  {
    if s == [] then []
    else if IsControl(s[0]) then RemoveControlChars(s[1..])
    else [s[0]] + RemoveControlChars(s[1..])
  }

  /**
   * The kept characters stay in their order, each as often as it was there:
   * removing control characters from two pieces is removing them from each.
   */
  lemma {:induction false} RemoveControlCharsAppend(a: string, b: string)
    ensures RemoveControlChars(a + b) == RemoveControlChars(a) + RemoveControlChars(b)
  {
    if a != [] {
      assert (a + b)[0] == a[0] && (a + b)[1..] == a[1..] + b;
      RemoveControlCharsAppend(a[1..], b);
      if IsControl(a[0]) {
        assert RemoveControlChars(a) == RemoveControlChars(a[1..]);
      } else {
        assert RemoveControlChars(a) == [a[0]] + RemoveControlChars(a[1..]);
      }
    } else {
      assert a + b == b;
    }
  }
  /** A line break between two texts is dropped; a first text without control characters is kept. */
  lemma RemoveControlCharsBreak(a: string, b: string)
    requires forall c :: c in a ==> !IsControl(c)
    ensures RemoveControlChars(a + "\n" + b) == a + RemoveControlChars(b)
  {
    assert a + "\n" + b == a + ("\n" + b);
    RemoveControlCharsAppend(a, "\n" + b);
    assert "\n" + b == ['\n'] + b;
    RemoveControlCharsAppend(['\n'], b);
  }


  /** `s.indexOf(c)`: the first position of `c`, or -1. */
  function IndexOf(s: string, c: char): (i: int)
    ensures -1 <= i < |s|
    ensures i == -1 <==> c !in s
    ensures i >= 0 ==> s[i] == c && c !in s[..i]
  {
    if s == [] then -1
    else if s[0] == c then 0
    else
      var j := IndexOf(s[1..], c);
      if j == -1 then -1 else j + 1
  }

  /** `s.lastIndexOf(c)`: the last position of `c`, or -1. */
  function LastIndexOf(s: string, c: char): (i: int)
    ensures -1 <= i < |s|
    ensures i == -1 <==> c !in s
    ensures i >= 0 ==> s[i] == c && c !in s[i + 1..]
  {
    if s == [] then -1
    else if s[|s| - 1] == c then |s| - 1
    else
      var j := LastIndexOf(s[..|s| - 1], c);
      assert s == s[..|s| - 1] + [s[|s| - 1]];
      j
  }

  /** `s.slice(start, end)` for indices within the string: empty when `end <= start`. */
  function Slice(s: string, start: nat, end: nat): (r: string)
    requires start <= |s| && end <= |s|
    ensures |r| == if start < end then end - start else 0
    ensures forall i :: 0 <= i < |r| ==> r[i] == s[start + i]
  {
    if start < end then s[start..end] else []
  }
}
