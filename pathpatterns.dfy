/** The path rewrite `path.replaceAll("\\{.*}", "\\{.*}")`: every match of the
    regular expression `\{.*}` is replaced by the literal text `{.*}`. */
module PathPatterns {
  import opened JavaStrings

  /** The replacement text: a literal `{.*}`. */
  const Wildcard: string := "{.*}"

  /** The characters Java's `.` does not match (no UNIX_LINES flag). */
  predicate IsLineTerminator(c: char) {
    c == '\n' || c == '\r' || c == '\U{0085}' || c == '\U{2028}' || c == '\U{2029}'
  }

  predicate NoLineTerminator(s: string) {
    forall k :: 0 <= k < |s| ==> !IsLineTerminator(s[k])
  }

  /** The index of the first line terminator in `s`, or `|s|`. */
  function LineEnd(s: string): (e: nat)
    ensures e <= |s|
  {
    if |s| == 0 || IsLineTerminator(s[0]) then 0 else 1 + LineEnd(s[1..])
  }

  lemma {:induction false} LineEndIsFirstTerminator(s: string)
    ensures forall k :: 0 <= k < LineEnd(s) ==> !IsLineTerminator(s[k])
    ensures LineEnd(s) < |s| ==> IsLineTerminator(s[LineEnd(s)])
  {
    if |s| > 0 && !IsLineTerminator(s[0]) {
      LineEndIsFirstTerminator(s[1..]);
    }
  }

  /** The last index below `e` holding a '}', or -1. */
  function LastCloseBefore(s: string, e: nat): (r: int)
    requires e <= |s|
    ensures -1 <= r < e && (0 <= r ==> s[r] == '}')
  {
    if e == 0 then -1 else if s[e - 1] == '}' then e - 1 else LastCloseBefore(s, e - 1)
  }

  /** `LastCloseBefore` is `lastIndexOf('}')` on the prefix below `e`. */
  lemma {:induction false} LastCloseBeforeIsLastIndexOf(s: string, e: nat)
    requires e <= |s|
    ensures LastCloseBefore(s, e) == LastIndexOfChar(s[..e], '}')
  {
    if e > 0 {
      assert s[..e][e - 1] == s[e - 1];
      assert s[..e][..e - 1] == s[..e - 1];
      LastCloseBeforeIsLastIndexOf(s, e - 1);
    }
  }

  /** With `s` starting at a '{', the index of the last character of the
      longest match of `\{.*}` there (the last '}' before the end of the
      line), or -1 when there is no match. */
  function MatchEnd(s: string): (j: int)
    requires |s| > 0 && s[0] == '{'
    ensures j == -1 || (0 < j < |s| && s[j] == '}')
  {
    LastCloseBefore(s, LineEnd(s))
  }

  /** No '}' lies between `LastCloseBefore(s, e)` and `e`. */
  lemma {:induction false} LastCloseBeforeIsLast(s: string, e: nat)
    requires e <= |s|
    ensures forall k :: LastCloseBefore(s, e) < k < e ==> s[k] != '}'
  {
    if e > 0 && s[e - 1] != '}' {
      LastCloseBeforeIsLast(s, e - 1);
    }
  }

  /** `MatchEnd` is the longest match: no line terminator lies inside it, and
      every later '}' is on a later line; with no match, every '}' is. */
  lemma MatchEndIsLongest(s: string)
    requires |s| > 0 && s[0] == '{'
    ensures 0 < MatchEnd(s) ==> forall k :: 0 <= k < MatchEnd(s) ==> !IsLineTerminator(s[k])
    ensures forall k :: MatchEnd(s) < k < |s| && s[k] == '}' ==> LineEnd(s) < k && IsLineTerminator(s[LineEnd(s)])
  {
    LineEndIsFirstTerminator(s);
    LastCloseBeforeIsLast(s, LineEnd(s));
    LongestMatch(s, LineEnd(s), MatchEnd(s));
  }

  /** The match ending at the last '}' before the first line terminator `e`
      holds no terminator, and every '}' after it lies beyond `e`. */
  lemma LongestMatch(s: string, e: nat, m: int)
    requires e <= |s| && -1 <= m < e
    requires forall k :: 0 <= k < e ==> !IsLineTerminator(s[k])
    requires e < |s| ==> IsLineTerminator(s[e])
    requires forall k :: m < k < e ==> s[k] != '}'
    ensures 0 < m ==> forall k :: 0 <= k < m ==> !IsLineTerminator(s[k])
    ensures forall k :: m < k < |s| && s[k] == '}' ==> e < k && IsLineTerminator(s[e])
  {
  }

  /** `replaceAll` scanning left to right: at each '{' that starts a match the
      longest match is replaced and scanning resumes after it; every other
      character is copied. */
  function ReplacePlaceholders(s: string): (r: string)
    decreases |s|
  {
    if |s| == 0 then ""
    else if s[0] == '{' && MatchEnd(s) > 0 then Wildcard + ReplacePlaceholders(s[MatchEnd(s) + 1..])
    else [s[0]] + ReplacePlaceholders(s[1..])
  }

  /** The closed form of the rewrite on a single-line path: the span from the
      first '{' to the last '}' becomes one `{.*}`; without such a span the
      path is unchanged. */
  function GreedyCollapse(s: string): (r: string) {
    var i, j := IndexOfChar(s, '{'), LastIndexOfChar(s, '}');
    if 0 <= i < j then s[..i] + Wildcard + s[j + 1..] else s
  }

  /** A path with no '}' is left as it is. */
  lemma {:induction false} NoCloseUnchanged(s: string)
    requires LastIndexOfChar(s, '}') == -1
    ensures ReplacePlaceholders(s) == s
    decreases |s|
  {
    if |s| > 0 {
      LastIndexOfCharTail(s, '}');
      NoCloseUnchanged(s[1..]);
      assert s == [s[0]] + s[1..];
    }
  }

  /** Characters before the first '{' are copied unchanged. */
  lemma {:induction false} CopyPrefix(s: string, i: nat)
    requires i <= |s|
    requires forall k :: 0 <= k < i ==> s[k] != '{'
    ensures ReplacePlaceholders(s) == s[..i] + ReplacePlaceholders(s[i..])
    decreases i
  {
    if i == 0 {
      assert s[..0] == [] && s[0..] == s;
    } else {
      CopyPrefix(s[1..], i - 1);
      assert s[1..][i - 1..] == s[i..];
      assert s[..i] == [s[0]] + s[1..][..i - 1];
    }
  }

  /** On a single line the match at a leading '{' runs to the last '}'. */
  lemma MatchEndOnOneLine(s: string)
    requires NoLineTerminator(s)
    requires |s| > 0 && s[0] == '{'
    ensures MatchEnd(s) == LastIndexOfChar(s, '}')
  {
    LineEndIsFirstTerminator(s);
    assert LineEnd(s) == |s|;
    LastCloseBeforeIsLastIndexOf(s, |s|);
    assert s[..|s|] == s;
  }

  /** One step of the scan at a '{': a match is replaced, otherwise the '{' is copied. */
  lemma ScanAtOpenBrace(u: string)
    requires |u| > 0 && u[0] == '{'
    ensures MatchEnd(u) > 0 ==> ReplacePlaceholders(u) == Wildcard + ReplacePlaceholders(u[MatchEnd(u) + 1..])
    ensures MatchEnd(u) <= 0 ==> ReplacePlaceholders(u) == [u[0]] + ReplacePlaceholders(u[1..])
  {
  }

  /** From the first '{' of a single-line path, the match runs to the last '}'
      when there is one after it, and there is none otherwise. */
  lemma MatchFromFirstBrace(s: string, i: nat)
    requires NoLineTerminator(s)
    requires i == IndexOfChar(s, '{')
    ensures var j := LastIndexOfChar(s, '}');
            MatchEnd(s[i..]) == if i < j then j - i else -1
  {
    var u := s[i..];
    assert NoLineTerminator(u);
    MatchEndOnOneLine(u);
    LastIndexOfCharSuffix(s, '}', i);
  }

  /** A match at index `i` ending at `j` is replaced and the scan resumes after `j`. */
  lemma ScanMatchAt(s: string, i: nat, j: nat)
    requires i < j < |s| && s[i] == '{'
    requires MatchEnd(s[i..]) == j - i
    ensures ReplacePlaceholders(s[i..]) == Wildcard + ReplacePlaceholders(s[j + 1..])
  {
    ScanAtOpenBrace(s[i..]);
    DropDrop(s, i, j - i + 1);
  }

  /** A '{' at index `i` that starts no match is copied and the scan resumes after it. */
  lemma ScanNoMatchAt(s: string, i: nat)
    requires i < |s| && s[i] == '{'
    requires MatchEnd(s[i..]) == -1
    ensures ReplacePlaceholders(s[i..]) == [s[i]] + ReplacePlaceholders(s[i + 1..])
  {
    ScanAtOpenBrace(s[i..]);
    DropDrop(s, i, 1);
  }

  /** From the first '{', the scan replaces everything through the last '}'. */
  lemma ScanFromFirstBrace(s: string, i: nat, j: nat)
    requires NoLineTerminator(s)
    requires i == IndexOfChar(s, '{') && j == LastIndexOfChar(s, '}') && i < j
    ensures ReplacePlaceholders(s[i..]) == Wildcard + ReplacePlaceholders(s[j + 1..])
  {
    MatchFromFirstBrace(s, i);
    ScanMatchAt(s, i, j);
  }

  /** From the first '{', with no '}' after it, the scan copies the '{'. */
  lemma ScanPastFirstBrace(s: string, i: nat)
    requires NoLineTerminator(s)
    requires i == IndexOfChar(s, '{') && LastIndexOfChar(s, '}') < i
    ensures ReplacePlaceholders(s[i..]) == [s[i]] + ReplacePlaceholders(s[i + 1..])
  {
    MatchFromFirstBrace(s, i);
    ScanNoMatchAt(s, i);
  }

  /** A single-line path with a '{' before its last '}': the span between
      them becomes one wildcard. */
  lemma RewriteSpan(s: string, i: nat, j: nat)
    requires NoLineTerminator(s)
    requires i == IndexOfChar(s, '{') && j == LastIndexOfChar(s, '}') && i < j
    ensures ReplacePlaceholders(s) == s[..i] + Wildcard + s[j + 1..]
  {
    CopyPrefix(s, i);
    ScanFromFirstBrace(s, i, j);
    LastIndexOfCharSuffix(s, '}', j + 1);
    NoCloseUnchanged(s[j + 1..]);
    AppendAssoc(s[..i], Wildcard, s[j + 1..]);
  }

  /** A single-line path whose first '{' follows every '}' is unchanged. */
  lemma RewriteNoSpan(s: string, i: nat)
    requires NoLineTerminator(s)
    requires i == IndexOfChar(s, '{') && LastIndexOfChar(s, '}') < i
    ensures ReplacePlaceholders(s) == s
  {
    CopyPrefix(s, i);
    ScanPastFirstBrace(s, i);
    LastIndexOfCharSuffix(s, '}', i + 1);
    NoCloseUnchanged(s[i + 1..]);
    Reassemble(s, i);
  }

  /** A path with no '{' is left as it is. */
  lemma RewriteNoOpen(s: string)
    requires IndexOfChar(s, '{') == -1
    ensures ReplacePlaceholders(s) == s
  {
    CopyPrefix(s, |s|);
    assert s[..|s|] == s;
  }

  lemma AppendAssoc(a: string, b: string, c: string)
    ensures a + (b + c) == a + b + c
  {
  }

  lemma Reassemble(s: string, i: nat)
    requires i < |s|
    ensures s[..i] + ([s[i]] + s[i + 1..]) == s
  {
  }

  /** On a path without line terminators, Java's rewrite is the greedy
      collapse: the regex matches at most once, from the first '{' to the last '}'. */
  lemma RewriteIsGreedyCollapse(s: string)
    requires NoLineTerminator(s)
    ensures ReplacePlaceholders(s) == GreedyCollapse(s)
  {
    var i, j := IndexOfChar(s, '{'), LastIndexOfChar(s, '}');
    if i < 0 {
      CollapseNoOpen(s);
    } else if i < j {
      CollapseWithSpan(s, i, j);
    } else {
      CollapseNoSpan(s, i);
    }
  }

  /** The case of no '{'. */
  lemma CollapseNoOpen(s: string)
    requires IndexOfChar(s, '{') == -1
    ensures ReplacePlaceholders(s) == GreedyCollapse(s)
  {
    RewriteNoOpen(s);
  }

  /** The case of a '{' before the last '}'. */
  lemma CollapseWithSpan(s: string, i: nat, j: nat)
    requires NoLineTerminator(s)
    requires i == IndexOfChar(s, '{') && j == LastIndexOfChar(s, '}') && i < j
    ensures ReplacePlaceholders(s) == GreedyCollapse(s)
  {
    RewriteSpan(s, i, j);
  }

  /** The case of a first '{' after every '}'. */
  lemma CollapseNoSpan(s: string, i: nat)
    requires NoLineTerminator(s)
    requires i == IndexOfChar(s, '{') && LastIndexOfChar(s, '}') < i
    ensures ReplacePlaceholders(s) == GreedyCollapse(s)
  {
    RewriteNoSpan(s, i);
  }

  /** One placeholder span: what precedes the first '{' and follows the last '}'
      is kept around a single wildcard. */
  lemma CollapseSpan(pre: string, inner: string, post: string)
    requires forall k :: 0 <= k < |pre| ==> pre[k] != '{'
    requires forall k :: 0 <= k < |post| ==> post[k] != '}'
    ensures GreedyCollapse(pre + "{" + inner + "}" + post) == pre + Wildcard + post
  {
    var s := pre + "{" + inner + "}" + post;
    var i, j := IndexOfChar(s, '{'), LastIndexOfChar(s, '}');
    assert s[|pre|] == '{';
    assert forall k :: 0 <= k < |pre| ==> s[k] == pre[k];
    var c := |pre| + 1 + |inner|;
    assert s[c] == '}';
    assert forall k :: c < k < |s| ==> s[k] == post[k - c - 1];
    assert i == |pre| && j == c;
    assert s[..i] == pre;
    assert s[j + 1..] == post;
  }

  /** The rewrite of a single-line path `pre{inner}post`, where `pre` has no
      '{' and `post` no '}': `pre`, one wildcard, `post`. */
  lemma RewriteOfSpan(pre: string, inner: string, post: string)
    requires forall k :: 0 <= k < |pre| ==> pre[k] != '{'
    requires forall k :: 0 <= k < |post| ==> post[k] != '}'
    requires NoLineTerminator(pre + "{" + inner + "}" + post)
    ensures ReplacePlaceholders(pre + "{" + inner + "}" + post) == pre + Wildcard + post
  {
    RewriteIsGreedyCollapse(pre + "{" + inner + "}" + post);
    CollapseSpan(pre, inner, post);
  }

  /** A single path parameter becomes the wildcard. */
  lemma RewriteOneParameter(path: string)
    requires path == "/users/{id}"
    ensures ReplacePlaceholders(path) == "/users/{.*}"
  {
    assert path == "/users/" + "{" + "id" + "}" + "";
    RewriteOfSpan("/users/", "id", "");
    assert "/users/" + Wildcard + "" == "/users/{.*}";
  }

  /** Two path parameters collapse, with the text between them, into one wildcard. */
  lemma RewriteTwoParameters(path: string)
    requires path == "/a/{x}/b/{y}"
    ensures ReplacePlaceholders(path) == "/a/{.*}"
  {
    assert path == "/a/" + "{" + "x}/b/{y" + "}" + "";
    RewriteOfSpan("/a/", "x}/b/{y", "");
  }

  /** A path without braces is copied. */
  lemma RewriteNoParameter(path: string)
    requires path == "/pets"
    ensures ReplacePlaceholders(path) == "/pets"
  {
    RewriteNoOpen(path);
  }
}
