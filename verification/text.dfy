/** The JavaScript string operations the site relies on: `trim`, `split` on a
    single character, `join`, `startsWith`, and the decimal rendering of a
    non-negative integer. */
module Text {

  /** The characters `String.prototype.trim` removes: the ECMAScript
      WhiteSpace and LineTerminator code points. */
  predicate IsWhitespace(c: char) {
    c == '\t' || c == '\n' || c == '\U{B}' || c == '\U{C}' || c == '\r' || c == ' '
    || c == '\U{A0}' || c == '\U{1680}' || ('\U{2000}' <= c <= '\U{200A}')
    || c == '\U{2028}' || c == '\U{2029}' || c == '\U{202F}' || c == '\U{205F}'
    || c == '\U{3000}' || c == '\U{FEFF}'
  }

  /** Every character of `s` is whitespace (true of the empty string). */
  predicate IsBlank(s: string) {
    forall i :: 0 <= i < |s| ==> IsWhitespace(s[i])
  }

  /** Neither end of `s` is whitespace: `trim` has nothing to remove. */
  predicate IsTrimmed(s: string) {
    s == [] || (!IsWhitespace(s[0]) && !IsWhitespace(s[|s| - 1]))
  }

  function TrimStart(s: string): (r: string)
    ensures |r| <= |s| && r == s[|s| - |r|..]
    ensures forall i :: 0 <= i < |s| - |r| ==> IsWhitespace(s[i])
    ensures r != [] ==> !IsWhitespace(r[0])
    decreases |s|
  {
    if s != [] && IsWhitespace(s[0]) then TrimStart(s[1..]) else s
  }

  function TrimEnd(s: string): (r: string)
    ensures |r| <= |s| && r == s[..|r|]
    ensures forall i :: |r| <= i < |s| ==> IsWhitespace(s[i])
    ensures r != [] ==> !IsWhitespace(r[|r| - 1])
    decreases |s|
  {
    if s != [] && IsWhitespace(s[|s| - 1]) then TrimEnd(s[..|s| - 1]) else s
  }

  /** `String.prototype.trim`: the result has no whitespace at either end,
      and it is empty exactly when the input is blank. */
  function Trim(s: string): (r: string)
    ensures IsTrimmed(r)
    ensures |r| <= |s|
    ensures r == [] <==> IsBlank(s)
  {
    TrimEnd(TrimStart(s))
  }

  /** A string with nothing to trim is its own trim. */
  lemma TrimTrimmed(s: string)
    requires IsTrimmed(s)
    ensures Trim(s) == s
  {
    NothingToTrimStart(s);
    NothingToTrimEnd(s);
  }

  lemma NothingToTrimStart(s: string)
    requires s == [] || !IsWhitespace(s[0])
    ensures TrimStart(s) == s
  {
  }

  lemma NothingToTrimEnd(s: string)
    requires s == [] || !IsWhitespace(s[|s| - 1])
    ensures TrimEnd(s) == s
  {
  }

  /** Trimming twice is trimming once. */
  lemma TrimIdempotent(s: string)
    ensures Trim(Trim(s)) == Trim(s)
  {
    TrimTrimmed(Trim(s));
  }

  /** The single space `join(', ')` puts before a trimmed piece is removed
      again by `trim`. */
  lemma TrimAfterSpace(s: string)
    requires IsTrimmed(s)
    ensures Trim([' '] + s) == s
  {
    LeadingSpaceIsTrimmed(s);
    NothingToTrimStart(s);
    NothingToTrimEnd(s);
  }

  /** The space typed after a trimmed piece is removed again by `trim`. */
  lemma TrimBeforeSpace(s: string)
    requires IsTrimmed(s)
    ensures Trim(s + [' ']) == s
  {
    if s == [] {
      assert s + [' '] == [' '] + s;
      LeadingSpaceIsTrimmed(s);
      NothingToTrimStart(s);
      NothingToTrimEnd(s);
    } else {
      assert (s + [' '])[0] == s[0];
      NothingToTrimStart(s + [' ']);
      TrailingSpaceIsTrimmed(s);
      NothingToTrimEnd(s);
    }
  }

  /** A trimmed piece between two spaces is what `trim` leaves. */
  lemma TrimAroundSpaces(s: string)
    requires IsTrimmed(s)
    ensures Trim(([' '] + s) + [' ']) == s
  {
    var u := s + [' '];
    SpaceAround(s);
    LeadingSpaceIsTrimmed(u);
    TrimBeforeSpace(s);
  }

  lemma SpaceAround(s: string)
    ensures ([' '] + s) + [' '] == [' '] + (s + [' '])
  {
  }

  lemma TrailingSpaceIsTrimmed(s: string)
    ensures TrimEnd(s + [' ']) == TrimEnd(s)
  {
    var t := s + [' '];
    assert IsWhitespace(t[|t| - 1]) && t[..|t| - 1] == s;
  }

  lemma LeadingSpaceIsTrimmed(s: string)
    ensures TrimStart([' '] + s) == TrimStart(s)
  {
    var t := [' '] + s;
    assert IsWhitespace(t[0]) && t[1..] == s;
  }

  /** `s.startsWith(p)`. */
  predicate StartsWith(s: string, p: string) {
    |p| <= |s| && s[..|p|] == p
  }

  /** `ts.join(sep)`. */
  function Join(ts: seq<string>, sep: string): string
  {
    if ts == [] then []
    else if |ts| == 1 then ts[0]
    else ts[0] + sep + Join(ts[1..], sep)
  }

  /** `s.split(sep)` for a one-character separator: at least one piece. */
  function Split(s: string, sep: char): (r: seq<string>)
    ensures |r| >= 1
    decreases |s|
  {
    if s == [] then [[]]
    else
      var rest := Split(s[1..], sep);
      if s[0] == sep then [[]] + rest
      else [[s[0]] + rest[0]] + rest[1..]
  }

  /** No piece of a split contains the separator. */
  lemma {:induction false} SplitPiecesLackSeparator(s: string, sep: char)
    ensures forall i :: 0 <= i < |Split(s, sep)| ==> sep !in Split(s, sep)[i]
    decreases |s|
  {
    if s != [] {
      SplitPiecesLackSeparator(s[1..], sep);
    }
  }

  /** `join` undoes `split`: joining the pieces with the separator gives back
      the string. */
  lemma {:induction false} JoinSplit(s: string, sep: char)
    ensures Join(Split(s, sep), [sep]) == s
    decreases |s|
  {
    if s != [] {
      JoinSplit(s[1..], sep);
      var rest := Split(s[1..], sep);
      SplitCons(s[0], s[1..], sep);
      assert s == [s[0]] + s[1..];
      if s[0] == sep {
        JoinCons([], rest, [sep]);
      } else {
        JoinPrepend([s[0]], rest, [sep]);
      }
    }
  }

  /** Joining a list with a new head puts the head and a separator in front. */
  lemma JoinCons(a: string, rest: seq<string>, sep: string)
    requires rest != []
    ensures Join([a] + rest, sep) == a + sep + Join(rest, sep)
  {
    assert ([a] + rest)[1..] == rest;
  }

  /** Text put before a join lands in the first piece. */
  lemma JoinPrepend(c: string, xs: seq<string>, sep: string)
    requires |xs| >= 1
    ensures c + Join(xs, sep) == Join([c + xs[0]] + xs[1..], sep)
  {
    var ys := [c + xs[0]] + xs[1..];
    assert ys[1..] == xs[1..];
  }

  /** Splitting a string that starts with a separator-free word `w` puts `w`
      in front of the first piece of the rest. */
  lemma {:induction false} SplitAfterWord(w: string, t: string, sep: char)
    requires sep !in w
    ensures Split(w + t, sep) == [w + Split(t, sep)[0]] + Split(t, sep)[1..]
    decreases |w|
  {
    var st := Split(t, sep);
    if w == [] {
      assert w + t == t;
      assert w + st[0] == st[0];
    } else {
      var c, w' := w[0], w[1..];
      assert c != sep && sep !in w' && w == [c] + w';
      SplitAfterWord(w', t, sep);
      WordStep(c, w', t, sep, st);
    }
  }

  /** One character of a separator-free word joins the first piece. */
  lemma WordStep(c: char, w: string, t: string, sep: char, st: seq<string>)
    requires c != sep && st == Split(t, sep)
    requires Split(w + t, sep) == [w + st[0]] + st[1..]
    ensures Split(([c] + w) + t, sep) == [([c] + w) + st[0]] + st[1..]
  {
    assert ([c] + w) + t == [c] + (w + t);
    SplitCons(c, w + t, sep);
    assert [c] + (w + st[0]) == ([c] + w) + st[0];
  }

  /** A string without the separator is a single piece. */
  lemma SplitWithoutSeparator(s: string, sep: char)
    requires sep !in s
    ensures Split(s, sep) == [s]
  {
    SplitAfterWord(s, [], sep);
    assert s + [] == s;
  }

  /** `split` undoes `join`: joining separator-free pieces and splitting the
      result on the separator gives back exactly the pieces. */
  lemma {:induction false} SplitJoin(ts: seq<string>, sep: char)
    requires |ts| >= 1
    requires forall i :: 0 <= i < |ts| ==> sep !in ts[i]
    ensures Split(Join(ts, [sep]), sep) == ts
  {
    if |ts| == 1 {
      SplitAfterWord(ts[0], [], sep);
      assert ts[0] + [] == ts[0];
    } else {
      var rest := Join(ts[1..], [sep]);
      SplitJoin(ts[1..], sep);
      SplitAfterWord(ts[0], [sep] + rest, sep);
      SplitCons(sep, rest, sep);
      var tail := Split([sep] + rest, sep);
      assert tail == [[]] + ts[1..];
      assert tail[0] == [] && tail[1..] == ts[1..];
      assert Join(ts, [sep]) == ts[0] + ([sep] + rest);
      assert ts[0] + tail[0] == ts[0];
      assert ts == [ts[0]] + ts[1..];
    }
  }

  /** One step of `split`: the first character either closes an empty piece
      or starts the first piece. */
  lemma SplitCons(c: char, s: string, sep: char)
    ensures Split([c] + s, sep) ==
      if c == sep then [[]] + Split(s, sep)
      else [[c] + Split(s, sep)[0]] + Split(s, sep)[1..]
  {
    assert ([c] + s)[1..] == s;
  }

  /** Splitting a longer string: the pieces of `x` except its last, followed by
      the pieces of that last piece extended by `y`. This is what makes a
      line splitter that carries the unterminated tail forward independent of
      where the input was cut. */
  lemma {:induction false} SplitAppend(x: string, y: string, sep: char)
    ensures var px := Split(x, sep);
      Split(x + y, sep) == px[..|px| - 1] + Split(px[|px| - 1] + y, sep)
    decreases |x|
  {
    if x == [] {
      assert x + y == y;
    } else {
      var c, x' := x[0], x[1..];
      assert x == [c] + x';
      assert x + y == [c] + (x' + y);
      SplitAppend(x', y, sep);
      if c == sep {
        SplitAppendAfterSeparator(x', y, sep);
      } else if |Split(x', sep)| == 1 {
        SplitAppendIntoOnlyPiece(c, x', y, sep);
      } else {
        SplitAppendIntoFirstPiece(c, x', y, sep);
      }
    }
  }

  /** `SplitAppend` for a string that starts with the separator. */
  lemma SplitAppendAfterSeparator(x: string, y: string, sep: char)
    requires var pr := Split(x, sep);
      Split(x + y, sep) == pr[..|pr| - 1] + Split(pr[|pr| - 1] + y, sep)
    ensures var px := Split([sep] + x, sep);
      Split([sep] + (x + y), sep) == px[..|px| - 1] + Split(px[|px| - 1] + y, sep)
  {
    var pr := Split(x, sep);
    var tail := Split(pr[|pr| - 1] + y, sep);
    SplitCons(sep, x, sep);
    SplitCons(sep, x + y, sep);
    ConsInit([], pr, tail);
  }

  /** The list bookkeeping of a new first piece. */
  lemma ConsInit<T>(h: T, pr: seq<T>, tail: seq<T>)
    requires |pr| >= 1
    ensures var px := [h] + pr;
      [h] + (pr[..|pr| - 1] + tail) == px[..|px| - 1] + tail && px[|px| - 1] == pr[|pr| - 1]
  {
    var px := [h] + pr;
    assert px[..|px| - 1] == [h] + pr[..|pr| - 1];
  }

  /** `SplitAppend` when the rest has a single piece, which the first
      character joins. */
  lemma SplitAppendIntoOnlyPiece(c: char, x: string, y: string, sep: char)
    requires c != sep && |Split(x, sep)| == 1
    requires var pr := Split(x, sep);
      Split(x + y, sep) == pr[..|pr| - 1] + Split(pr[|pr| - 1] + y, sep)
    ensures var px := Split([c] + x, sep);
      Split([c] + (x + y), sep) == px[..|px| - 1] + Split(px[|px| - 1] + y, sep)
  {
    var pr := Split(x, sep);
    var p0 := pr[0];
    var tail := Split(p0 + y, sep);
    assert pr[..0] == [] && pr[1..] == [];
    assert Split(x + y, sep) == tail;
    SplitCons(c, x + y, sep);
    var whole := Split([c] + (x + y), sep);
    assert whole == [[c] + tail[0]] + tail[1..];
    SplitCons(c, p0 + y, sep);
    assert ([c] + p0) + y == [c] + (p0 + y);
    assert Split(([c] + p0) + y, sep) == whole;
    SplitCons(c, x, sep);
    var px := Split([c] + x, sep);
    assert px == [[c] + p0];
  }

  /** `SplitAppend` when the rest has several pieces: the first character
      joins the first one, and the last one is extended. */
  lemma SplitAppendIntoFirstPiece(c: char, x: string, y: string, sep: char)
    requires c != sep && |Split(x, sep)| > 1
    requires var pr := Split(x, sep);
      Split(x + y, sep) == pr[..|pr| - 1] + Split(pr[|pr| - 1] + y, sep)
    ensures var px := Split([c] + x, sep);
      Split([c] + (x + y), sep) == px[..|px| - 1] + Split(px[|px| - 1] + y, sep)
  {
    var pr := Split(x, sep);
    var tail := Split(pr[|pr| - 1] + y, sep);
    var r := Split(x + y, sep);
    SplitCons(c, x, sep);
    SplitCons(c, x + y, sep);
    ReplaceHead([c] + pr[0], pr, tail, r);
  }

  /** The list bookkeeping of a first piece that grows: `r` is `pr` with its
      last piece replaced by `tail`. */
  lemma ReplaceHead<T>(h: T, pr: seq<T>, tail: seq<T>, r: seq<T>)
    requires |pr| > 1 && r == pr[..|pr| - 1] + tail
    ensures var px := [h] + pr[1..];
      r[0] == pr[0] && [h] + r[1..] == px[..|px| - 1] + tail && px[|px| - 1] == pr[|pr| - 1]
  {
    var px := [h] + pr[1..];
    assert r[1..] == pr[1..|pr| - 1] + tail;
    assert px[..|px| - 1] == [h] + pr[1..|pr| - 1];
  }

  /** The number of occurrences of `c` in `s`. */
  function Count(s: string, c: char): nat
  {
    if s == [] then 0 else (if s[0] == c then 1 else 0) + Count(s[1..], c)
  }

  /** `split` yields one more piece than there are separators. */
  lemma {:induction false} SplitLength(s: string, sep: char)
    ensures |Split(s, sep)| == Count(s, sep) + 1
    decreases |s|
  {
    if s != [] {
      SplitLength(s[1..], sep);
    }
  }

  predicate IsDigit(c: char) {
    '0' <= c <= '9'
  }

  function DigitChar(d: nat): (c: char)
    requires d < 10
    ensures IsDigit(c)
  {
    "0123456789"[d]
  }

  function DigitValue(c: char): (d: nat)
    requires IsDigit(c)
    ensures d < 10
  {
    (c as int - '0' as int)
  }

  /** The value of a string of decimal digits. */
  function DecimalValue(s: string): nat
    requires forall i :: 0 <= i < |s| ==> IsDigit(s[i])
  {
    if s == [] then 0 else DecimalValue(s[..|s| - 1]) * 10 + DigitValue(s[|s| - 1])
  }

  /** `n.toString()` for a non-negative integer: decimal digits, no leading
      zero except for 0 itself. */
  function NatToString(n: nat): (r: string)
    ensures r != []
    ensures forall i :: 0 <= i < |r| ==> IsDigit(r[i])
    ensures r[0] == '0' ==> n == 0
  {
    if n < 10 then [DigitChar(n)] else NatToString(n / 10) + [DigitChar(n % 10)]
  }

  /** Reading the digits back gives the number. */
  lemma {:induction false} NatToStringValue(n: nat)
    ensures DecimalValue(NatToString(n)) == n
  {
    var r := NatToString(n);
    if n < 10 {
      assert r[..0] == [];
    } else {
      NatToStringValue(n / 10);
      assert r[..|r| - 1] == NatToString(n / 10);
    }
  }
}
