/** The text cleaners of the pre-input builder (`create_pre_input.py`):
    line breaks become spaces, escaped quotes and escaped punctuation lose
    their backslash, and descriptions that repeat their opening sentence
    are cut back to the last repetition. */
module TextCleaning {
  import opened Common
  import opened Text

  /** Every `a` in `s` replaced by `b` (`re.sub` of a one-character pattern). */
  function ReplaceChar(s: string, a: char, b: char): (r: string)
    ensures |r| == |s|
    ensures forall k :: 0 <= k < |s| ==> r[k] == (if s[k] == a then b else s[k])
  {
    seq(|s|, k requires 0 <= k < |s| => if s[k] == a then b else s[k])
  }

  /** `s.replace('\\' + c, c)`: every backslash-`c` pair, scanned left to
      right without overlap, loses its backslash. */
  function DropEscape(s: string, c: char): (r: string)
    ensures |r| <= |s|
    ensures forall k :: 0 <= k < |r| ==> r[k] in s
  {
    if s == [] then []
    else if |s| >= 2 && s[0] == '\\' && s[1] == c then
      var rest := DropEscape(s[2..], c);
      assert forall k :: 0 <= k < |rest| ==> rest[k] in s by {
        forall k | 0 <= k < |rest| ensures rest[k] in s {
          assert rest[k] in s[2..];
        }
      }
      [c] + rest
    else
      var rest := DropEscape(s[1..], c);
      assert forall k :: 0 <= k < |rest| ==> rest[k] in s by {
        forall k | 0 <= k < |rest| ensures rest[k] in s {
          assert rest[k] in s[1..];
        }
      }
      [s[0]] + rest
  }

  /** Writes a backslash before every `c`: the inverse of `DropEscape`. */
  function AddEscape(t: string, c: char): string
  {
    if t == [] then []
    else (if t[0] == c then ['\\', c] else [t[0]]) + AddEscape(t[1..], c)
  }

  /** Round trip: escaping every `c` and then dropping the escapes gives
      back the original text, whatever backslashes it already held. */
  lemma {:induction false} DropAddEscape(t: string, c: char)
    requires c != '\\'
    ensures DropEscape(AddEscape(t, c), c) == t
  {
    if t != [] {
      var rest := AddEscape(t[1..], c);
      DropAddEscape(t[1..], c);
      if t[0] == c {
        var s := ['\\', c] + rest;
        assert s[2..] == rest;
        assert t == [c] + t[1..];
      } else {
        var s := [t[0]] + rest;
        assert s[1..] == rest;
        assert rest == [] || rest[0] != c by {
          if t[1..] != [] {
            assert rest[0] == (if t[1..][0] == c then '\\' else t[1..][0]);
          }
        }
        assert t == [t[0]] + t[1..];
      }
    }
  }

  /** `re.sub(r'\\([^\w])', r'\1', s)`: a backslash before any character
      that is not a word character is dropped; the pair is consumed, so the
      character kept is not examined again. */
  function Unescape(s: string): (r: string)
    ensures |r| <= |s|
    ensures forall k :: 0 <= k < |r| ==> r[k] in s
  {
    if s == [] then []
    else if |s| >= 2 && s[0] == '\\' && !IsWordChar(s[1]) then
      var rest := Unescape(s[2..]);
      assert forall k :: 0 <= k < |rest| ==> rest[k] in s by {
        forall k | 0 <= k < |rest| ensures rest[k] in s {
          assert rest[k] in s[2..];
        }
      }
      [s[1]] + rest
    else
      var rest := Unescape(s[1..]);
      assert forall k :: 0 <= k < |rest| ==> rest[k] in s by {
        forall k | 0 <= k < |rest| ensures rest[k] in s {
          assert rest[k] in s[1..];
        }
      }
      [s[0]] + rest
  }

  /** Writes a backslash before every character that is not a word
      character: the inverse of `Unescape`. */
  function Escape(t: string): string
  {
    if t == [] then []
    else (if IsWordChar(t[0]) then [t[0]] else ['\\', t[0]]) + Escape(t[1..])
  }

  /** Round trip: unescaping an escaped text gives the text back. */
  lemma {:induction false} UnescapeEscape(t: string)
    ensures Unescape(Escape(t)) == t
  {
    if t != [] {
      var rest := Escape(t[1..]);
      UnescapeEscape(t[1..]);
      if IsWordChar(t[0]) {
        var s := [t[0]] + rest;
        assert s[1..] == rest;
      } else {
        var s := ['\\', t[0]] + rest;
        assert s[2..] == rest;
      }
      assert t == [t[0]] + t[1..];
    }
  }

  /** The clean-up both cleaners share: line breaks to spaces, then the
      escaped quotes, then every escaped non-word character. */
  function Clean(text: string): (r: string)
    ensures '\n' !in r && '\r' !in r
  {
    var t1 := ReplaceChar(ReplaceChar(text, '\n', ' '), '\r', ' ');
    var t2 := DropEscape(DropEscape(DropEscape(t1, '\''), '"'), '`');
    assert '\n' !in t2 && '\r' !in t2 by {
      var a := DropEscape(t1, '\'');
      var b := DropEscape(a, '"');
      assert '\n' !in a && '\r' !in a;
      assert '\n' !in b && '\r' !in b;
    }
    Unescape(t2)
  }

  /** `process_blurb`: the cleaned text without surrounding whitespace;
      `""` for a missing or empty blurb. */
  function ProcessBlurb(text: Option<string>): (r: string)
    ensures text.None? || text.value == [] ==> r == []
    ensures '\n' !in r && '\r' !in r
    ensures r == [] || (!IsSpace(r[0]) && !IsSpace(r[|r| - 1]))
  {
    if text.None? || text.value == [] then ""
    else
      var t := Clean(text.value);
      StripChars(t, '\n');
      StripChars(t, '\r');
      Strip(t)
  }

  /** The opening sentence: the text up to its first `.` with the `.`
      restored, or the stripped text when it has no `.`. */
  function FirstSentence(t: string): (r: string)
    ensures '.' in t ==> r == Head(t, '.') + "." && '.' !in r[..|r| - 1]
    ensures '.' !in t ==> r == Strip(t)
  {
    if '.' in t then Head(t, '.') + "." else Strip(t)
  }

  /** `process_text`: after the shared clean-up, when the opening sentence
      occurs again later in the text, the text is cut back to its last
      occurrence; the result is stripped. `""` for a missing or empty text. */
  function ProcessText(text: Option<string>): (r: string)
    ensures text.None? || text.value == [] ==> r == []
    ensures '\n' !in r && '\r' !in r
    ensures r == [] || (!IsSpace(r[0]) && !IsSpace(r[|r| - 1]))
    ensures text.Some? && text.value != [] ==>
              var t := Clean(text.value);
              var k := RFind(RStrip(t), FirstSentence(t));
              (k > 0 ==> r == Strip(t[k..])) && (k <= 0 ==> r == Strip(t))
  {
    if text.None? || text.value == [] then ""
    else
      var t := Clean(text.value);
      var k := RFind(RStrip(t), FirstSentence(t));
      if k > 0 then
        StripChars(t[k..], '\n');
        StripChars(t[k..], '\r');
        Strip(t[k..])
      else
        StripChars(t, '\n');
        StripChars(t, '\r');
        Strip(t)
  }

  /** The cut point is the last place the opening sentence occurs: the
      result starts at an occurrence of the opening sentence after which
      there is no other, or it is the whole stripped text. */
  lemma ProcessTextCut(text: string)
    requires text != []
    ensures var t := Clean(text);
            var first := FirstSentence(t);
            var r := ProcessText(Some(text));
            || r == Strip(t)
            || exists k :: 0 < k && OccursAt(RStrip(t), first, k)
                 && (forall j :: k < j ==> !OccursAt(RStrip(t), first, j))
                 && r == Strip(t[k..])
  {
    var t := Clean(text);
    var k := RFind(RStrip(t), FirstSentence(t));
    if k > 0 {
      assert OccursAt(RStrip(t), FirstSentence(t), k);
    }
  }

  /** An opening sentence that occurs nowhere but at the start leaves the
      whole text: nothing is cut. */
  lemma ProcessTextNoRepeat(text: string)
    requires text != []
    requires forall j :: 0 < j ==> !OccursAt(RStrip(Clean(text)), FirstSentence(Clean(text)), j)
    ensures ProcessText(Some(text)) == Strip(Clean(text))
  {
  }

  /** `description_length`: the number of whitespace-separated words of the
      processed description. */
  function DescriptionLength(text: Option<string>): (n: nat)
    ensures text.None? ==> n == 0
    ensures n <= |ProcessText(text)|
  {
    WordsBound(ProcessText(text));
    |Words(ProcessText(text))|
  }

  /** A text of `n` characters has at most `n` words. */
  lemma {:induction false} WordsBound(s: string)
    ensures |Words(s)| <= |s|
    decreases |s|
  {
    if s != [] {
      if IsSpace(s[0]) {
        WordsBound(s[1..]);
      } else {
        WordsBound(s[TokenLen(s)..]);
      }
    }
  }
}
