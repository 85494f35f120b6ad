/** Python `str` operations the pipeline relies on, over the ASCII range:
    `isspace`, `split()` with no separator, `sep.join`, `strip`, `lower`,
    `title` and `rfind`. */
module Text {

  /** Python's `str.isspace` restricted to ASCII: space, \t, \n, \v, \f, \r
      and the separators \x1c-\x1f. */
  predicate IsSpace(c: char)
  {
    c == ' ' || c == '\t' || c == '\n' || c == '\r'
    || c == '\U{000B}' || c == '\U{000C}'
    || ('\U{001C}' <= c <= '\U{001F}')
  }

  /** The regex class `\w` over ASCII: letters, digits and underscore. */
  predicate IsWordChar(c: char)
  {
    ('a' <= c <= 'z') || ('A' <= c <= 'Z') || ('0' <= c <= '9') || c == '_'
  }

  predicate IsUpper(c: char) { 'A' <= c <= 'Z' }

  predicate IsLower(c: char) { 'a' <= c <= 'z' }

  /** A cased letter in the sense of `str.title`. */
  predicate IsCased(c: char) { IsUpper(c) || IsLower(c) }

  function LowerChar(c: char): char
  {
    if IsUpper(c) then (c as int + 32) as char else c
  }

  function UpperChar(c: char): char
  {
    if IsLower(c) then (c as int - 32) as char else c
  }

  /** `s.lower()`. */
  function Lower(s: string): (r: string)
    ensures |r| == |s|
    ensures forall i :: 0 <= i < |s| ==> r[i] == LowerChar(s[i])
  {
    seq(|s|, i requires 0 <= i < |s| => LowerChar(s[i]))
  }

  /** Lower-casing twice changes nothing more than lower-casing once. */
  lemma LowerIdempotent(s: string)
    ensures Lower(Lower(s)) == Lower(s)
  {
  }

  /** `s.lstrip()`: drops the leading whitespace and nothing else. */
  function LStrip(s: string): (r: string)
    ensures |r| <= |s| && r == s[|s| - |r|..]
    ensures r == [] || !IsSpace(r[0])
    ensures forall k :: 0 <= k < |s| - |r| ==> IsSpace(s[k])
  {
    if s != [] && IsSpace(s[0]) then LStrip(s[1..]) else s
  }

  /** `s.rstrip()`: drops the trailing whitespace and nothing else. */
  function RStrip(s: string): (r: string)
    ensures |r| <= |s| && r == s[..|r|]
    ensures r == [] || !IsSpace(r[|r| - 1])
    ensures forall k :: |r| <= k < |s| ==> IsSpace(s[k])
  {
    if s != [] && IsSpace(s[|s| - 1]) then RStrip(s[..|s| - 1]) else s
  }

  /** `s.strip()`: the slice of `s` between its leading and its trailing
      whitespace. */
  function Strip(s: string): (r: string)
    ensures |r| <= |LStrip(s)| <= |s|
    ensures r == s[|s| - |LStrip(s)|..|s| - |LStrip(s)| + |r|]
    ensures r == [] || (!IsSpace(r[0]) && !IsSpace(r[|r| - 1]))
    ensures forall k :: 0 <= k < |s| - |LStrip(s)| ==> IsSpace(s[k])
    ensures forall k :: |s| - |LStrip(s)| + |r| <= k < |s| ==> IsSpace(s[k])
  {
    RStrip(LStrip(s))
  }

  /** Stripping an already stripped text changes nothing. */
  lemma StripIdempotent(s: string)
    ensures Strip(Strip(s)) == Strip(s)
  {
    var r := Strip(s);
    assert r == [] || !IsSpace(r[0]);
    assert LStrip(r) == r;
    assert RStrip(r) == r;
  }

  /** Every character of `Strip(s)` comes from `s`. */
  lemma StripChars(s: string, c: char)
    requires c !in s
    ensures c !in Strip(s)
  {
    var r := Strip(s);
    var a := |s| - |LStrip(s)|;
    assert r == s[a..a + |r|];
  }

  /** Length of the run of non-space characters at the start of `s`. */
  function TokenLen(s: string): (n: nat)
    ensures n <= |s|
    ensures forall k :: 0 <= k < n ==> !IsSpace(s[k])
    ensures n == |s| || IsSpace(s[n])
  {
    if s == [] || IsSpace(s[0]) then 0 else 1 + TokenLen(s[1..])
  }

  /** A word in the sense of `split()`: non-empty and free of whitespace. */
  predicate IsWord(w: string)
  {
    w != [] && forall k :: 0 <= k < |w| ==> !IsSpace(w[k])
  }

  /** `s.split()`: the maximal runs of non-whitespace characters, in order. */
  function Words(s: string): (ws: seq<string>)
    ensures forall i :: 0 <= i < |ws| ==> IsWord(ws[i])
    decreases |s|
  {
    if s == [] then []
    else if IsSpace(s[0]) then Words(s[1..])
    else
      var n := TokenLen(s);
      [s[..n]] + Words(s[n..])
  }

  /** `sep.join(ws)`. */
  function Join(sep: string, ws: seq<string>): string
  {
    if ws == [] then []
    else if |ws| == 1 then ws[0]
    else Join(sep, ws[..|ws| - 1]) + sep + ws[|ws| - 1]
  }

  lemma WordsSpaceHead(s: string)
    requires s != [] && IsSpace(s[0])
    ensures Words(s) == Words(s[1..])
  {
  }

  lemma WordsWordHead(s: string)
    requires s != [] && !IsSpace(s[0])
    ensures Words(s) == [s[..TokenLen(s)]] + Words(s[TokenLen(s)..])
  {
  }

  lemma {:induction false} TokenLenOfWord(w: string, rest: string)
    requires forall k :: 0 <= k < |w| ==> !IsSpace(w[k])
    requires rest == [] || IsSpace(rest[0])
    ensures TokenLen(w + rest) == |w|
  {
    if w == [] {
      assert w + rest == rest;
    } else {
      assert (w + rest)[1..] == w[1..] + rest;
      TokenLenOfWord(w[1..], rest);
    }
  }

  /** Splitting a word followed by text that starts with whitespace (or is
      empty) gives that word first. */
  lemma {:induction false} WordsOfWordThen(w: string, rest: string)
    requires IsWord(w)
    requires rest == [] || IsSpace(rest[0])
    ensures Words(w + rest) == [w] + Words(rest)
  {
    var s := w + rest;
    TokenLenOfWord(w, rest);
    WordsWordHead(s);
    assert s[..|w|] == w;
    assert s[|w|..] == rest;
  }

  /** Whitespace between two texts separates their words: the words of
      `a + [c] + b` are the words of `a` followed by those of `b`. */
  lemma {:induction false} WordsSplitAt(a: string, c: char, b: string)
    requires IsSpace(c)
    ensures Words(a + [c] + b) == Words(a) + Words(b)
    decreases |a|
  {
    var s := a + [c] + b;
    if a == [] {
      WordsSpaceHead(s);
      assert s[1..] == b;
    } else if IsSpace(a[0]) {
      WordsSpaceHead(s);
      assert s[1..] == a[1..] + [c] + b;
      WordsSplitAt(a[1..], c, b);
      WordsSpaceHead(a);
    } else {
      var n := TokenLen(a);
      var rest := a[n..] + [c] + b;
      assert s == a[..n] + rest;
      TokenLenOfWord(a[..n], rest);
      WordsWordHead(s);
      assert s[..n] == a[..n];
      assert s[n..] == rest;
      WordsWordHead(a);
      WordsSplitAt(a[n..], c, b);
    }
  }

  /** Round trip: splitting words joined by single spaces gives the words back. */
  lemma {:induction false} WordsOfJoin(ws: seq<string>)
    requires forall i :: 0 <= i < |ws| ==> IsWord(ws[i])
    ensures Words(Join(" ", ws)) == ws
  {
    if ws == [] {
    } else if |ws| == 1 {
      WordsOfWordThen(ws[0], []);
      assert ws[0] + [] == ws[0];
    } else {
      var init := ws[..|ws| - 1];
      var last := ws[|ws| - 1];
      WordsOfJoin(init);
      WordsSplitAt(Join(" ", init), ' ', last);
      assert Join(" ", ws) == Join(" ", init) + [' '] + last;
      WordsOfWordThen(last, []);
      assert last + [] == last;
      assert init + [last] == ws;
    }
  }

  /** A text made of words joined by spaces holds no character that none of
      the words holds, except the separator. */
  lemma {:induction false} JoinChars(sep: string, ws: seq<string>, c: char)
    requires c !in sep
    requires forall i :: 0 <= i < |ws| ==> c !in ws[i]
    ensures c !in Join(sep, ws)
  {
    if |ws| > 1 {
      JoinChars(sep, ws[..|ws| - 1], c);
    }
  }

  /** Index of the first `c` in `s`, or `|s|` when there is none. */
  function FirstIndex(s: string, c: char): (n: nat)
    ensures n <= |s|
    ensures forall k :: 0 <= k < n ==> s[k] != c
    ensures n == |s| || s[n] == c
  {
    if s == [] || s[0] == c then 0 else 1 + FirstIndex(s[1..], c)
  }

  /** `s.split(c)[0]`: the text before the first `c`, or all of `s`. */
  function Head(s: string, c: char): (r: string)
    ensures c !in r
    ensures r <= s
    ensures r == s || s[|r|] == c
  {
    s[..FirstIndex(s, c)]
  }

  /** `sub` occurs in `s` starting at index `k`. */
  predicate OccursAt(s: string, sub: string, k: int)
  {
    0 <= k <= |s| - |sub| && s[k..k + |sub|] == sub
  }

  /** `s.rfind(sub)`: the highest index where `sub` occurs, or -1. */
  function RFind(s: string, sub: string): (r: int)
    ensures r == -1 || 0 <= r <= |s| - |sub|
    ensures r >= 0 ==> OccursAt(s, sub, r)
    ensures forall k :: r < k ==> !OccursAt(s, sub, k)
  {
    if |sub| > |s| then -1 else RFindFrom(s, sub, |s| - |sub|)
  }

  function RFindFrom(s: string, sub: string, i: int): (r: int)
    requires -1 <= i <= |s| - |sub|
    ensures -1 <= r <= i
    ensures r >= 0 ==> OccursAt(s, sub, r)
    ensures forall k :: r < k <= i ==> !OccursAt(s, sub, k)
    decreases i + 1
  {
    if i < 0 then -1
    else if OccursAt(s, sub, i) then i
    else RFindFrom(s, sub, i - 1)
  }

  /** `s.title()`: a cased letter is upper-cased when it starts a run of
      cased letters and lower-cased otherwise; other characters stay. */
  function Title(s: string): (r: string)
    ensures |r| == |s|
  {
    TitleFrom(s, false)
  }

  function TitleFrom(s: string, afterCased: bool): (r: string)
    ensures |r| == |s|
    ensures forall k :: 0 <= k < |s| ==> LowerChar(r[k]) == LowerChar(s[k])
    ensures forall k :: 0 <= k < |s| ==> (IsCased(r[k]) <==> IsCased(s[k]))
  {
    if s == [] then []
    else
      var c := s[0];
      var t := if !IsCased(c) then c else if afterCased then LowerChar(c) else UpperChar(c);
      [t] + TitleFrom(s[1..], IsCased(c))
  }

  /** Title-casing preserves the text up to case: comparing lower-cased
      forms cannot tell `Title(s)` from `s`. */
  lemma TitleLower(s: string)
    ensures Lower(Title(s)) == Lower(s)
  {
  }
}
