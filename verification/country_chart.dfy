/** The label formatter of the country chart (`Tools/plot/country_chart.py`,
    `format_country_name`): long names are broken over two lines. */
module CountryChart {
  import opened Text

  /** Names up to this length stay on one line. */
  const MaxLineLength: nat := 10

  /** `format_country_name`: a short name as it is; a long name of several
      words split into two lines at the middle word; a long single word cut
      in half by a line break. */
  function FormatCountryName(name: string): (r: string)
    ensures |name| <= MaxLineLength ==> r == name
  {
    if |name| <= MaxLineLength then name
    else
      var ws := Words(name);
      if |ws| > 1 then
        var mid := |ws| / 2;
        TwoLines(Join(" ", ws[..mid]), Join(" ", ws[mid..]))
      else
        var mid := |name| / 2;
        TwoLines(name[..mid], name[mid..])
  }

  /** Two lines joined by a break. */
  function TwoLines(a: string, b: string): (r: string)
    ensures |r| == |a| + 1 + |b|
  {
    a + "\n" + b
  }

  /** When neither line holds a break, the joining break is the only one. */
  lemma OneBreak(a: string, b: string)
    requires '\n' !in a && '\n' !in b
    ensures forall k :: 0 <= k < |TwoLines(a, b)| ==> (TwoLines(a, b)[k] == '\n' <==> k == |a|)
  {
    var r := TwoLines(a, b);
    forall k | 0 <= k < |r| ensures r[k] == '\n' <==> k == |a| {
      if k < |a| {
        assert r[k] == a[k];
      } else if k > |a| {
        assert r[k] == b[k - |a| - 1];
      }
    }
  }

  /** Words joined by spaces hold no line break. */
  lemma NoBreakInJoin(ws: seq<string>)
    requires forall i :: 0 <= i < |ws| ==> IsWord(ws[i])
    ensures '\n' !in Join(" ", ws)
  {
    forall i | 0 <= i < |ws| ensures '\n' !in ws[i] {
      assert IsWord(ws[i]);
    }
    JoinChars(" ", ws, '\n');
  }

  /** Splitting two lines of words gives the words of both. */
  lemma WordsOfTwoLines(ws: seq<string>, mid: int)
    requires 0 <= mid <= |ws|
    requires forall i :: 0 <= i < |ws| ==> IsWord(ws[i])
    ensures Words(TwoLines(Join(" ", ws[..mid]), Join(" ", ws[mid..]))) == ws
  {
    var a := Join(" ", ws[..mid]);
    var b := Join(" ", ws[mid..]);
    WordsOfJoin(ws[..mid]);
    WordsOfJoin(ws[mid..]);
    assert TwoLines(a, b) == a + ['\n'] + b;
    WordsSplitAt(a, '\n', b);
    assert ws[..mid] + ws[mid..] == ws;
  }

  /** A long name of several words becomes its first half of words, a line
      break, and the rest; the break is the only one, and splitting the
      label gives back the name's words. */
  lemma MultiWordLabel(name: string)
    requires |name| > MaxLineLength && |Words(name)| > 1
    ensures var ws := Words(name);
            var first := Join(" ", ws[..|ws| / 2]);
            var r := FormatCountryName(name);
            && r == TwoLines(first, Join(" ", ws[|ws| / 2..]))
            && (forall k :: 0 <= k < |r| ==> (r[k] == '\n' <==> k == |first|))
            && Words(r) == ws
  {
    var ws := Words(name);
    var mid := |ws| / 2;
    NoBreakInJoin(ws[..mid]);
    NoBreakInJoin(ws[mid..]);
    OneBreak(Join(" ", ws[..mid]), Join(" ", ws[mid..]));
    WordsOfTwoLines(ws, mid);
  }

  /** A long single word gets one line break in the middle, and taking it
      out restores the name. */
  lemma SingleWordLabel(name: string)
    requires |name| > MaxLineLength && |Words(name)| <= 1
    ensures var r := FormatCountryName(name);
            var mid := |name| / 2;
            r[mid] == '\n' && r[..mid] + r[mid + 1..] == name
  {
    var mid := |name| / 2;
    var r := FormatCountryName(name);
    assert r[..mid] == name[..mid];
    assert r[mid + 1..] == name[mid..];
    assert name[..mid] + name[mid..] == name;
  }

  /** A long two-word name, such as `"United States"`, has its space
      replaced by a line break. */
  lemma TwoWordName(a: string, b: string)
    requires IsWord(a) && IsWord(b)
    requires |a| + 1 + |b| > MaxLineLength
    ensures FormatCountryName(a + " " + b) == a + "\n" + b
  {
    WordsSplitAt(a, ' ', b);
    WordsOfWordThen(a, []);
    WordsOfWordThen(b, []);
    assert a + [] == a && b + [] == b;
    assert a + " " + b == a + [' '] + b;
    var ws := Words(a + " " + b);
    assert ws == [a, b];
    assert ws[..1] == [a] && ws[1..] == [b];
  }
}
