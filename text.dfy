/** The string primitives both parsers are built on: `str::split_ascii_whitespace`,
    `str::lines` and `<usize as FromStr>::from_str`, together with the
    renderings that invert them (`Unwords`, `Unlines`, `FormatNat`). */
module Text {
  import opened Results

  /** `char::is_ascii_whitespace`: space, tab, line feed, form feed, carriage return. */
  predicate IsAsciiWhitespace(c: char) {
    c == ' ' || c == '\t' || c == '\n' || c == '\U{000C}' || c == '\r'
  }

  /** What `split_ascii_whitespace` can yield: a non-empty run without whitespace. */
  predicate IsWord(w: string) {
    w != [] && forall i | 0 <= i < |w| :: !IsAsciiWhitespace(w[i])
  }

  /** Length of the longest whitespace-free prefix of `s`. */
  function WordLength(s: string): (n: nat)
    ensures n <= |s|
    ensures forall i | 0 <= i < n :: !IsAsciiWhitespace(s[i])
    ensures n < |s| ==> IsAsciiWhitespace(s[n])
  {
    if s == [] || IsAsciiWhitespace(s[0]) then 0 else 1 + WordLength(s[1..])
  }

  /** `s.split_ascii_whitespace()`: the maximal whitespace-free runs of `s`, in order. */
  function Words(s: string): (ws: seq<string>)
    ensures forall i | 0 <= i < |ws| :: IsWord(ws[i])
    decreases |s|
  {
    if s == [] then []
    else if IsAsciiWhitespace(s[0]) then Words(s[1..])
    else
      var n := WordLength(s);
      [s[..n]] + Words(s[n..])
  }

  /** The words joined by single spaces. */
  function Unwords(ws: seq<string>): string {
    if ws == [] then []
    else if |ws| == 1 then ws[0]
    else ws[0] + " " + Unwords(ws[1..])
  }

  /** A word followed by nothing or by whitespace is split off whole. */
  lemma WordsOfWordThen(w: string, t: string)
    requires IsWord(w)
    requires t == [] || IsAsciiWhitespace(t[0])
    ensures Words(w + t) == [w] + Words(t)
  {
    var s := w + t;
    var n := WordLength(s);
    assert forall i | 0 <= i < |w| :: s[i] == w[i];
    assert |w| < |s| ==> s[|w|] == t[0];
    assert s[..n] == w;
    assert s[n..] == t;
  }

  /** Splitting undoes joining, for words that `split_ascii_whitespace` could produce. */
  lemma {:induction false} WordsUnwords(ws: seq<string>)
    requires forall i | 0 <= i < |ws| :: IsWord(ws[i])
    ensures Words(Unwords(ws)) == ws
  {
    if |ws| == 1 {
      WordsOfWordThen(ws[0], []);
      assert ws[0] + [] == ws[0];
    } else if |ws| > 1 {
      var rest := Unwords(ws[1..]);
      WordsUnwords(ws[1..]);
      assert ws[0] + " " + rest == ws[0] + (" " + rest);
      WordsOfWordThen(ws[0], " " + rest);
      assert (" " + rest)[1..] == rest;
    }
  }

  /** Whitespace before a text is skipped: leading, repeated and mixed
      whitespace (carriage returns included) yields no token. */
  lemma {:induction false} WordsSkipsWhitespace(g: string, s: string)
    requires forall i | 0 <= i < |g| :: IsAsciiWhitespace(g[i])
    ensures Words(g + s) == Words(s)
    decreases |g|
  {
    if g == [] {
      assert g + s == s;
    } else {
      assert (g + s)[0] == g[0];
      assert (g + s)[1..] == g[1..] + s;
      WordsSkipsWhitespace(g[1..], s);
    }
  }

  /** Words never hold a line feed, so neither does their join. */
  lemma {:induction false} UnwordsHasNoLineFeed(ws: seq<string>)
    requires forall i | 0 <= i < |ws| :: IsWord(ws[i])
    ensures '\n' !in Unwords(ws)
  {
    if |ws| == 1 {
      assert forall i | 0 <= i < |ws[0]| :: ws[0][i] != '\n';
    } else if |ws| > 1 {
      UnwordsHasNoLineFeed(ws[1..]);
      assert forall i | 0 <= i < |ws[0]| :: ws[0][i] != '\n';
      assert Unwords(ws) == ws[0] + " " + Unwords(ws[1..]);
    }
  }

  /** Length of the prefix of `s` before its first line feed. */
  function LineLength(s: string): (n: nat)
    ensures n <= |s|
    ensures forall i | 0 <= i < n :: s[i] != '\n'
    ensures n < |s| ==> s[n] == '\n'
  {
    if s == [] || s[0] == '\n' then 0 else 1 + LineLength(s[1..])
  }

  /** `s.lines()`: the pieces between line feeds; a final line feed does not
      start another (empty) line, and the empty text has no lines. */
  function Lines(s: string): (ls: seq<string>)
    ensures forall i | 0 <= i < |ls| :: '\n' !in ls[i]
    decreases |s|
  {
    if s == [] then []
    else
      var n := LineLength(s);
      if n == |s| then [s] else [s[..n]] + Lines(s[n + 1..])
  }

  /** The lines joined by line feeds. */
  function Unlines(ls: seq<string>): string {
    if ls == [] then []
    else if |ls| == 1 then ls[0]
    else ls[0] + "\n" + Unlines(ls[1..])
  }

  /** Splitting into lines undoes joining them, provided no line holds a line
      feed and the last line is not empty (an empty last line would read as a
      trailing line feed). */
  lemma {:induction false} LinesUnlines(ls: seq<string>)
    requires forall i | 0 <= i < |ls| :: '\n' !in ls[i]
    requires ls != [] ==> ls[|ls| - 1] != []
    ensures Lines(Unlines(ls)) == ls
  {
    if |ls| == 1 {
    } else if |ls| > 1 {
      var l := ls[0];
      var rest := Unlines(ls[1..]);
      var s := l + "\n" + rest;
      LinesUnlines(ls[1..]);
      var n := LineLength(s);
      assert forall i | 0 <= i < |l| :: s[i] == l[i] && s[i] in l;
      assert s[|l|] == '\n';
      assert s[..n] == l;
      assert s[n + 1..] == rest;
    }
  }

  /** A line followed by a line feed is split off whole, even when nothing
      follows the line feed. */
  lemma LinesOfLineThen(l: string, rest: string)
    requires '\n' !in l
    ensures Lines(l + "\n" + rest) == [l] + Lines(rest)
  {
    var s := l + "\n" + rest;
    assert forall i | 0 <= i < |l| :: s[i] == l[i] && s[i] in l;
    var n := LineLength(s);
    assert s[|l|] == '\n';
    assert s[..n] == l;
    assert s[n + 1..] == rest;
  }

  /** A final line feed does not start another line: joining lines and
      ending the text with a line feed still splits back into those lines,
      whatever the last line is. */
  lemma {:induction false} LinesTrailingLineFeed(ls: seq<string>)
    requires forall i | 0 <= i < |ls| :: '\n' !in ls[i]
    requires ls != []
    ensures Lines(Unlines(ls) + "\n") == ls
  {
    var l := ls[0];
    if |ls| == 1 {
      assert Unlines(ls) + "\n" == l + "\n" + [];
      LinesOfLineThen(l, []);
    } else {
      var tail := ls[1..];
      var rest := Unlines(tail) + "\n";
      assert Unlines(ls) + "\n" == l + "\n" + rest by {
        assert Unlines(ls) == l + "\n" + Unlines(tail);
      }
      assert forall i | 0 <= i < |tail| :: tail[i] == ls[i + 1];
      LinesTrailingLineFeed(tail);
      LinesOfLineThen(l, rest);
      assert [l] + tail == ls;
    }
  }

  predicate IsDigit(c: char) {
    '0' <= c <= '9'
  }

  predicate AllDigits(d: string) {
    forall i | 0 <= i < |d| :: IsDigit(d[i])
  }

  function DigitValue(c: char): (v: nat)
    requires IsDigit(c)
    ensures v < 10
  {
    c as int - '0' as int
  }

  /** The number a string of decimal digits denotes (most significant first). */
  function DigitsValue(d: string): nat
    requires AllDigits(d)
  {
    if d == [] then 0 else 10 * DigitsValue(d[..|d| - 1]) + DigitValue(d[|d| - 1])
  }

  /** One more than the largest `usize` on a 64-bit target. */
  const UsizeLimit: nat := 0x1_0000_0000_0000_0000

  /** `t.parse::<usize>()`: an optional leading `+`, then at least one decimal
      digit and nothing else, denoting a value that fits in 64 bits. */
  function ParseUsize(t: string): (r: Option<nat>)
    ensures r.Some? ==> r.value < UsizeLimit
    ensures r.Some? ==> t != [] && (IsDigit(t[0]) || t[0] == '+')
  {
    var d := if t != [] && t[0] == '+' then t[1..] else t;
    if d == [] || !AllDigits(d) then None
    else
      var v := DigitsValue(d);
      if v < UsizeLimit then Some(v) else None
  }

  /** A decimal text denoting 2^64 or more is not a `usize`. */
  lemma ParseUsizeRejectsLarge(n: nat)
    requires n >= UsizeLimit
    ensures ParseUsize(FormatNat(n)) == None
  {
    assert FormatNat(n)[0] != '+' by {
      assert IsDigit(FormatNat(n)[0]);
    }
  }

  /** A leading `+` is accepted and does not change the value. */
  lemma ParseUsizePlusSign(n: nat)
    requires n < UsizeLimit
    ensures ParseUsize("+" + FormatNat(n)) == Some(n)
  {
    assert ("+" + FormatNat(n))[1..] == FormatNat(n);
  }

  /** A run of zeros denotes zero. */
  lemma {:induction false} ZerosValue(z: string)
    requires forall i | 0 <= i < |z| :: z[i] == '0'
    ensures AllDigits(z) && DigitsValue(z) == 0
    decreases |z|
  {
    if z != [] {
      ZerosValue(z[..|z| - 1]);
    }
  }

  /** Leading zeros do not change the value of a decimal text. */
  lemma {:induction false} LeadingZerosValue(z: string, d: string)
    requires forall i | 0 <= i < |z| :: z[i] == '0'
    requires AllDigits(d)
    ensures AllDigits(z + d) && DigitsValue(z + d) == DigitsValue(d)
    decreases |d|
  {
    if d == [] {
      assert z + d == z;
      ZerosValue(z);
    } else {
      var x := z + d;
      LeadingZerosValue(z, d[..|d| - 1]);
      assert x[..|x| - 1] == z + d[..|d| - 1];
      assert x[|x| - 1] == d[|d| - 1];
    }
  }

  /** Every numeral reads as its value: an optional `+`, any number of
      leading zeros, then the decimal text of `n`, which is a `usize` exactly
      when `n` is below 2^64. */
  lemma ParseUsizeNumeral(p: string, z: string, n: nat)
    requires p == "" || p == "+"
    requires forall i | 0 <= i < |z| :: z[i] == '0'
    ensures ParseUsize(p + z + FormatNat(n)) == if n < UsizeLimit then Some(n) else None
  {
    var f := FormatNat(n);
    var d := z + f;
    var t := p + z + f;
    LeadingZerosValue(z, f);
    assert t == p + d;
    assert d != [] && IsDigit(d[0]);
    if p == "+" {
      assert t[1..] == d;
    } else {
      assert t == d;
    }
  }

  /** A token holding a character that is neither a digit nor a leading `+`
      is not a `usize`. */
  lemma ParseUsizeRejectsNonDigit(t: string, i: nat)
    requires i < |t| && !IsDigit(t[i]) && !(i == 0 && t[0] == '+')
    ensures ParseUsize(t) == None
  {
    if t[0] == '+' {
      assert t[1..][i - 1] == t[i];
    }
  }

  /** A token without digits, the empty one or a lone `+`, is not a `usize`. */
  lemma ParseUsizeRejectsNoDigits()
    ensures ParseUsize("") == None && ParseUsize("+") == None
  {
    assert "+"[1..] == [];
  }

  function DigitChar(v: nat): (c: char)
    requires v < 10
    ensures IsDigit(c) && DigitValue(c) == v
  {
    ('0' as int + v) as char
  }

  /** The decimal rendering of `n` (the `Display` of a `usize`): digits only,
      no leading zeros, and denoting `n`. */
  function FormatNat(n: nat): (t: string)
    ensures t != [] && AllDigits(t) && DigitsValue(t) == n
    ensures |t| > 1 ==> t[0] != '0'
  {
    if n < 10 then [DigitChar(n)]
    else
      var t := FormatNat(n / 10) + [DigitChar(n % 10)];
      assert t[..|t| - 1] == FormatNat(n / 10);
      t
  }

  /** A rendered number is a single word. */
  lemma FormatNatIsWord(n: nat)
    ensures IsWord(FormatNat(n))
  {
    var t := FormatNat(n);
    forall i | 0 <= i < |t| ensures !IsAsciiWhitespace(t[i]) {
      assert IsDigit(t[i]);
    }
  }

  /** Parsing reads a rendered `usize` back. */
  lemma ParseFormatNat(n: nat)
    requires n < UsizeLimit
    ensures ParseUsize(FormatNat(n)) == Some(n)
  {
    assert !IsDigit('+');
  }
}
