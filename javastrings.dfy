/** The java.lang.String operations the generator uses, over `seq<char>`. */
module JavaStrings {

  /** `s.indexOf(c)`: the first index of `c` in `s`, or -1. */
  function IndexOfChar(s: string, c: char): (r: int)
    ensures -1 <= r < |s|
    ensures r == -1 <==> forall j :: 0 <= j < |s| ==> s[j] != c
    ensures 0 <= r ==> s[r] == c && forall j :: 0 <= j < r ==> s[j] != c
  {
    if |s| == 0 then -1
    else if s[0] == c then 0
    else
      var k := IndexOfChar(s[1..], c);
      if k < 0 then -1 else k + 1
  }

  /** `s.lastIndexOf(c)`: the last index of `c` in `s`, or -1. */
  function LastIndexOfChar(s: string, c: char): (r: int)
    ensures -1 <= r < |s|
    ensures r == -1 <==> forall j :: 0 <= j < |s| ==> s[j] != c
    ensures 0 <= r ==> s[r] == c && forall j :: r < j < |s| ==> s[j] != c
  {
    if |s| == 0 then -1
    else if s[|s| - 1] == c then |s| - 1
    else LastIndexOfChar(s[..|s| - 1], c)
  }

  /** The last index in `s` seen from its tail: one more than in `s[1..]`,
      or 0 when only the first character matches. */
  lemma LastIndexOfCharTail(s: string, c: char)
    requires |s| > 0
    ensures LastIndexOfChar(s, c) ==
      var k := LastIndexOfChar(s[1..], c);
      if k >= 0 then k + 1 else if s[0] == c then 0 else -1
  {
    var k := LastIndexOfChar(s[1..], c);
    var r := LastIndexOfChar(s, c);
    if k >= 0 {
      assert s[k + 1] == c;
      assert r >= k + 1;
    } else if s[0] == c {
      assert r >= 0;
      assert forall j :: 1 <= j < |s| ==> s[j] == s[1..][j - 1];
    } else {
      assert forall j :: 1 <= j < |s| ==> s[j] == s[1..][j - 1];
    }
  }

  /** The last index of `c` in a suffix `s[i..]`, counted from `i`. */
  lemma LastIndexOfCharSuffix(s: string, c: char, i: nat)
    requires i <= |s|
    ensures LastIndexOfChar(s[i..], c) ==
      if LastIndexOfChar(s, c) >= i then LastIndexOfChar(s, c) - i else -1
  {
    var r := LastIndexOfChar(s, c);
    var k := LastIndexOfChar(s[i..], c);
    assert forall m :: 0 <= m < |s| - i ==> s[i..][m] == s[i + m];
    if k >= 0 {
      assert s[i + k] == c;
    }
    if r >= i {
      assert s[i..][r - i] == c;
    }
  }

  /** Dropping `a` then `b` characters drops `a + b`. */
  lemma DropDrop(s: string, a: nat, b: nat)
    requires a + b <= |s|
    ensures s[a..][b..] == s[a + b..]
  {
  }

  /** `pat` occurs in `s` starting at index `i`. */
  predicate OccursAt(s: string, pat: string, i: int) {
    0 <= i && i + |pat| <= |s| && s[i..i + |pat|] == pat
  }

  /** `s.indexOf(pat)`: the first index where `pat` occurs in `s`, or -1. */
  function IndexOf(s: string, pat: string): (r: int)
    ensures -1 <= r <= |s|
    ensures r == -1 <==> forall i :: 0 <= i <= |s| ==> !OccursAt(s, pat, i)
    ensures 0 <= r ==> OccursAt(s, pat, r) && forall i :: 0 <= i < r ==> !OccursAt(s, pat, i)
    decreases |s|
  {
    if |pat| <= |s| && s[..|pat|] == pat then
      assert OccursAt(s, pat, 0) by { assert s[0..|pat|] == s[..|pat|]; }
      0
    else if |s| == 0 then -1
    else
      assert !OccursAt(s, pat, 0) by { assert |pat| <= |s| ==> s[0..|pat|] == s[..|pat|]; }
      var k := IndexOf(s[1..], pat);
      ShiftOccurs(s, pat);
      if k < 0 then -1
      else
        assert OccursAt(s, pat, k + 1);
        k + 1
  }

  /** An occurrence in `s` after index 0 is an occurrence in `s[1..]` one index earlier. */
  lemma ShiftOccurs(s: string, pat: string)
    requires |s| > 0
    ensures forall i :: 1 <= i <= |s| ==> (OccursAt(s, pat, i) <==> OccursAt(s[1..], pat, i - 1))
  {
    forall i | 1 <= i <= |s|
      ensures OccursAt(s, pat, i) <==> OccursAt(s[1..], pat, i - 1)
    {
      if i + |pat| <= |s| {
        assert s[1..][i - 1..i - 1 + |pat|] == s[i..i + |pat|];
      }
    }
  }

  /** `Character.toLowerCase` restricted to ASCII. */
  function LowerChar(c: char): (r: char)
    ensures 'A' <= c <= 'Z' ==> r as int == c as int + 32
    ensures !('A' <= c <= 'Z') ==> r == c
  {
    if 'A' <= c <= 'Z' then (c as int + 32) as char else c
  }

  predicate IsUpper(c: char) { 'A' <= c <= 'Z' }

  /** `s.toLowerCase()` for ASCII text: every upper-case letter replaced by its
      lower-case form, every other character kept. */
  function ToLowerCase(s: string): (r: string)
    ensures |r| == |s|
    ensures forall i :: 0 <= i < |s| ==> r[i] == LowerChar(s[i])
    ensures forall i :: 0 <= i < |r| ==> !IsUpper(r[i])
  {
    seq(|s|, i requires 0 <= i < |s| => LowerChar(s[i]))
  }
}
