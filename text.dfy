/** The parts of Go's strings, strconv and path/filepath packages the sentinel
    relies on, written as functions over strings (sequences of Unicode scalar
    values). */
module Text {
  import opened Base

  /** unicode.IsSpace: the Latin-1 white space characters and the remaining
      code points with the Unicode White_Space property. */
  predicate IsSpace(c: char) {
    c == ' ' || c == '\t' || c == '\n' || c == '\U{0B}' || c == '\U{0C}' || c == '\r'
    || c == '\U{85}' || c == '\U{A0}' || c == '\U{1680}'
    || ('\U{2000}' <= c <= '\U{200A}') || c == '\U{2028}' || c == '\U{2029}'
    || c == '\U{202F}' || c == '\U{205F}' || c == '\U{3000}'
  }

  predicate NoSpace(s: string) {
    forall i :: 0 <= i < |s| ==> !IsSpace(s[i])
  }

  /** Length of the run of non-space characters that starts s. */
  function TokenEnd(s: string): (n: nat)
    ensures n <= |s|
    ensures NoSpace(s[..n])
    ensures n < |s| ==> IsSpace(s[n])
  {
    if s == [] || IsSpace(s[0]) then 0 else 1 + TokenEnd(s[1..])
  }

  /** strings.Fields: the maximal runs of non-space characters, in order. */
  function Fields(s: string): (r: seq<string>)
    ensures forall k :: 0 <= k < |r| ==> r[k] != [] && NoSpace(r[k])
    decreases |s|
  {
    if s == [] then []
    else if IsSpace(s[0]) then Fields(s[1..])
    else
      var n := TokenEnd(s);
      [s[..n]] + Fields(s[n..])
  }

  predicate HasPrefix(s: string, p: string) {
    |p| <= |s| && s[..|p|] == p
  }

  predicate HasSuffix(s: string, p: string) {
    |p| <= |s| && s[|s| - |p|..] == p
  }

  /** strings.Contains: sub occurs somewhere in s. */
  predicate Contains(s: string, sub: string)
    decreases |s|
  {
    HasPrefix(s, sub) || (s != [] && Contains(s[1..], sub))
  }

  predicate AllSpace(s: string) {
    forall i :: 0 <= i < |s| ==> IsSpace(s[i])
  }

  /** Separators for n words: n + 1 runs of white space, of which the n - 1
      between two words are not empty (the outer two may be). */
  predicate Separators(gaps: seq<string>, n: nat) {
    && |gaps| == n + 1
    && (forall k :: 0 <= k < |gaps| ==> AllSpace(gaps[k]))
    && (forall k :: 0 < k < n ==> gaps[k] != [])
  }

  /** The words laid out on a line with the given white space before, between
      and after them. */
  function Spread(ws: seq<string>, gaps: seq<string>): string
    requires |gaps| == |ws| + 1
    decreases |ws|
  {
    if ws == [] then gaps[0] else gaps[0] + ws[0] + Spread(ws[1..], gaps[1..])
  }

  /** Leading white space does not change the fields. */
  lemma {:induction false} FieldsSkipSpace(g: string, t: string)
    requires AllSpace(g)
    ensures Fields(g + t) == Fields(t)
    decreases |g|
  {
    if g != [] {
      var s := g + t;
      assert s[0] == g[0] && IsSpace(s[0]);
      assert s[1..] == g[1..] + t;
      FieldsSkipSpace(g[1..], t);
      assert Fields(s) == Fields(s[1..]);
    } else {
      assert g + t == t;
    }
  }

  /** Lined up with any separators, words split back into exactly those words. */
  lemma {:induction false} FieldsOfSpread(ws: seq<string>, gaps: seq<string>)
    requires forall k :: 0 <= k < |ws| ==> ws[k] != [] && NoSpace(ws[k])
    requires Separators(gaps, |ws|)
    ensures Fields(Spread(ws, gaps)) == ws
    decreases |ws|
  {
    if ws == [] {
      FieldsSkipSpace(gaps[0], "");
      assert gaps[0] + "" == gaps[0];
    } else {
      var w := ws[0];
      var tail := Spread(ws[1..], gaps[1..]);
      SeparatorsTail(gaps, |ws|);
      assert tail == [] || IsSpace(tail[0]) by {
        if |ws| > 1 {
          assert gaps[1] != [] && IsSpace(gaps[1][0]);
        } else {
          assert AllSpace(gaps[1]);
        }
      }
      TokenOfWord(w, tail);
      FieldsOfSpread(ws[1..], gaps[1..]);
      var line := w + tail;
      assert line != [] && !IsSpace(line[0]);
      assert line[TokenEnd(line)..] == tail;
      assert Fields(line) == [w] + Fields(tail);
      FieldsSkipSpace(gaps[0], line);
      assert Spread(ws, gaps) == gaps[0] + line;
    }
  }

  lemma SeparatorsTail(gaps: seq<string>, n: nat)
    requires n > 0 && Separators(gaps, n)
    ensures Separators(gaps[1..], n - 1)
  {
    forall k | 0 <= k < n ensures gaps[1..][k] == gaps[k + 1] {
    }
  }

  /** The white space around the fields of a line, in order. */
  function Gaps(s: string): (g: seq<string>)
    ensures g != []
    ensures s != [] && IsSpace(s[0]) ==> g[0] != []
    decreases |s|
  {
    if s == [] then [""]
    else if IsSpace(s[0]) then
      var g := Gaps(s[1..]);
      [[s[0]] + g[0]] + g[1..]
    else [""] + Gaps(s[TokenEnd(s)..])
  }

  /** Every line is its fields spread with the white space around them: Fields
      keeps every non-space character, in order, and cuts only at white space. */
  lemma {:induction false} SpreadOfFields(s: string)
    ensures var g := Gaps(s);
            Separators(g, |Fields(s)|) && Spread(Fields(s), g) == s
    decreases |s|
  {
    if s == [] {
    } else if IsSpace(s[0]) {
      SpreadOfFields(s[1..]);
      WidenFirstGap(s[0], Fields(s[1..]), Gaps(s[1..]));
      assert s == [s[0]] + s[1..];
    } else {
      var n := TokenEnd(s);
      SpreadOfFields(s[n..]);
      PrependWord(s[..n], Fields(s[n..]), Gaps(s[n..]));
      assert s == s[..n] + s[n..];
    }
  }

  /** One more white-space character in front of a spread line. */
  lemma WidenFirstGap(c: char, ws: seq<string>, g: seq<string>)
    requires IsSpace(c) && Separators(g, |ws|)
    ensures var h := [[c] + g[0]] + g[1..];
            Separators(h, |ws|) && Spread(ws, h) == [c] + Spread(ws, g)
  {
    WidenedSeparators(c, g, |ws|);
    SpreadWiderFirstGap(c, ws, g);
  }

  lemma SpreadWiderFirstGap(c: char, ws: seq<string>, g: seq<string>)
    requires |g| == |ws| + 1
    ensures Spread(ws, [[c] + g[0]] + g[1..]) == [c] + Spread(ws, g)
  {
    var h := [[c] + g[0]] + g[1..];
    assert h[0] == [c] + g[0] && h[1..] == g[1..];
    if ws == [] {
      assert Spread(ws, h) == h[0] && Spread(ws, g) == g[0];
    } else {
      var x := ws[0] + Spread(ws[1..], g[1..]);
      assert Spread(ws, h) == h[0] + x;
      assert Spread(ws, g) == g[0] + x;
    }
  }

  lemma WidenedSeparators(c: char, g: seq<string>, n: nat)
    requires IsSpace(c) && Separators(g, n)
    ensures Separators([[c] + g[0]] + g[1..], n)
  {
    var h := [[c] + g[0]] + g[1..];
    var w := [c] + g[0];
    assert AllSpace(w) by {
      forall i | 0 <= i < |w| ensures IsSpace(w[i]) {
        if i > 0 {
          assert w[i] == g[0][i - 1];
        }
      }
    }
    forall k | 0 < k < |h| ensures h[k] == g[k] {
      assert h[k] == g[1..][k - 1];
    }
    assert h[0] == w;
  }

  /** One more word in front of a spread line that is empty or starts with
      white space. */
  lemma PrependWord(w: string, ws: seq<string>, g: seq<string>)
    requires w != [] && Separators(g, |ws|)
    requires ws != [] ==> g[0] != []
    ensures var h := [""] + g;
            Separators(h, |ws| + 1) && Spread([w] + ws, h) == w + Spread(ws, g)
  {
    var h := [""] + g;
    var vs := [w] + ws;
    assert h[0] == "" && h[1..] == g;
    assert vs[0] == w && vs[1..] == ws;
    assert Spread(vs, h) == h[0] + vs[0] + Spread(vs[1..], h[1..]);
    assert "" + w == w;
    forall k | 0 <= k < |h| ensures AllSpace(h[k]) {
      if k > 0 {
        assert h[k] == g[k - 1];
      }
    }
    forall k | 0 < k < |vs| ensures h[k] != [] {
      assert h[k] == g[k - 1];
    }
  }

  lemma {:induction false} TokenOfWord(w: string, tail: string)
    requires w != [] && NoSpace(w)
    requires tail == [] || IsSpace(tail[0])
    ensures TokenEnd(w + tail) == |w|
    ensures (w + tail)[..|w|] == w
    decreases |w|
  {
    if |w| > 1 {
      assert (w + tail)[1..] == w[1..] + tail;
      TokenOfWord(w[1..], tail);
    } else {
      assert (w + tail)[1..] == tail;
    }
  }

  /** The first field of a line is a piece of the line, so whatever it starts
      with also occurs in the line. */
  lemma {:induction false} FirstFieldPrefixContained(s: string, p: string)
    requires Fields(s) != [] && HasPrefix(Fields(s)[0], p)
    ensures Contains(s, p)
    decreases |s|
  {
    if IsSpace(s[0]) {
      FirstFieldPrefixContained(s[1..], p);
    } else {
      var n := TokenEnd(s);
      assert Fields(s)[0] == s[..n];
      assert s[..|p|] == s[..n][..|p|];
    }
  }

  predicate IsDigit(c: char) { '0' <= c <= '9' }

  predicate AllDigits(s: string) {
    forall i :: 0 <= i < |s| ==> IsDigit(s[i])
  }

  function DigitValue(c: char): nat
    requires IsDigit(c)
  {
    c as int - '0' as int
  }

  /** The number a string of decimal digits denotes (unbounded). */
  function DecimalValue(s: string): nat
    requires AllDigits(s)
  {
    if s == [] then 0 else 10 * DecimalValue(s[..|s| - 1]) + DigitValue(s[|s| - 1])
  }

  /** strconv.ParseUint(s, 10, 64) with its error ignored, as the collector uses
      it: the value of a non-empty digit string, 2^64-1 when that value is out of
      range, and 0 for anything else. */
  function ParseUint(s: string): (r: u64)
    ensures !(s != [] && AllDigits(s)) ==> r == 0
    ensures s != [] && AllDigits(s) ==> r == if DecimalValue(s) < TWO_TO_64 then DecimalValue(s) else TWO_TO_64 - 1
  {
    if s != [] && AllDigits(s) then
      var v := DecimalValue(s);
      if v < TWO_TO_64 then v else TWO_TO_64 - 1
    else 0
  }

  function DigitChar(d: nat): (c: char)
    requires d < 10
    ensures IsDigit(c) && DigitValue(c) == d
  {
    "0123456789"[d]
  }

  /** strconv.FormatUint(n, 10): the shortest decimal rendering of n. */
  function FormatUint(n: nat): (r: string)
    ensures r != [] && AllDigits(r)
  {
    if n < 10 then [DigitChar(n)] else FormatUint(n / 10) + [DigitChar(n % 10)]
  }

  /** Formatting a number in decimal and reading it back gives the number. */
  lemma {:induction false} DecimalValueOfFormat(n: nat)
    ensures DecimalValue(FormatUint(n)) == n
  {
    if n >= 10 {
      var s := FormatUint(n);
      assert s[..|s| - 1] == FormatUint(n / 10);
      DecimalValueOfFormat(n / 10);
    }
  }

  /** ParseUint and FormatUint are inverse on uint64 values. */
  lemma ParseFormatRoundTrip(n: u64)
    ensures ParseUint(FormatUint(n)) == n
  {
    DecimalValueOfFormat(n);
  }

  /** n in decimal, left-padded with zeros to at least `width` digits. */
  function PadDecimal(n: nat, width: nat): (r: string)
    ensures AllDigits(r) && |r| >= width && r != []
    decreases width
  {
    var s := FormatUint(n);
    if |s| >= width then s else ['0'] + PadDecimal(n, width - 1)
  }

  lemma {:induction false} LeadingZero(s: string)
    requires AllDigits(s)
    ensures AllDigits(['0'] + s) && DecimalValue(['0'] + s) == DecimalValue(s)
    decreases |s|
  {
    if s != [] {
      var t := ['0'] + s;
      assert t[..|t| - 1] == ['0'] + s[..|s| - 1];
      LeadingZero(s[..|s| - 1]);
    }
  }

  /** Zero padding does not change the value written. */
  lemma {:induction false} DecimalValueOfPad(n: nat, width: nat)
    ensures DecimalValue(PadDecimal(n, width)) == n
    decreases width
  {
    DecimalValueOfFormat(n);
    if |FormatUint(n)| < width {
      DecimalValueOfPad(n, width - 1);
      LeadingZero(PadDecimal(n, width - 1));
    }
  }

  /** A number below 10^w padded to w digits takes exactly w characters. */
  lemma {:induction false} PadLength(n: nat, width: nat)
    requires width >= 1
    requires (width == 1 ==> n < 10) && (width == 2 ==> n < 100) && (width == 4 ==> n < 10000)
    requires width == 1 || width == 2 || width == 4
    ensures |PadDecimal(n, width)| == width
    decreases width
  {
    FormatLength(n);
    if |FormatUint(n)| < width {
      if width == 4 {
        PadLengthBelow(n, 3);
      } else if width == 2 {
        PadLengthBelow(n, 1);
      }
    }
  }

  lemma {:induction false} PadLengthBelow(n: nat, width: nat)
    requires 1 <= width <= 3
    requires |FormatUint(n)| <= width
    ensures |PadDecimal(n, width)| == width
    decreases width
  {
    if |FormatUint(n)| < width {
      PadLengthBelow(n, width - 1);
    }
  }

  /** The number of digits FormatUint writes, for the widths the date format uses. */
  lemma {:induction false} FormatLength(n: nat)
    ensures n < 10 ==> |FormatUint(n)| == 1
    ensures n < 100 ==> |FormatUint(n)| <= 2
    ensures n < 1000 ==> |FormatUint(n)| <= 3
    ensures n < 10000 ==> |FormatUint(n)| <= 4
  {
    if n >= 10 {
      FormatLength(n / 10);
    }
  }

  /** filepath.Join of a directory and a plain file name. */
  function JoinPath(dir: string, name: string): (r: string)
    ensures HasSuffix(r, name)
  {
    if dir == [] then name
    else if dir[|dir| - 1] == '/' then dir + name
    else dir + "/" + name
  }
}
