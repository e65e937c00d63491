/** The string operations the configuration normaliser relies on: Rust's
    `str::trim`, `str::split(',')`, `join(",")` and `u64::to_string`. */
module Text {

  /** Rust's `char::is_whitespace`: the code points with the Unicode
      White_Space property. */
  predicate IsWhitespace(c: char) {
    || ('\U{9}' <= c <= '\U{D}')
    || c == ' '
    || c == '\U{85}'
    || c == '\U{A0}'
    || c == '\U{1680}'
    || ('\U{2000}' <= c <= '\U{200A}')
    || c == '\U{2028}'
    || c == '\U{2029}'
    || c == '\U{202F}'
    || c == '\U{205F}'
    || c == '\U{3000}'
  }

  /** `str::trim_start`: drops the leading whitespace and nothing else. */
  function TrimStart(s: string): (r: string)
    ensures |r| <= |s| && r == s[|s| - |r|..]
    ensures forall i :: 0 <= i < |s| - |r| ==> IsWhitespace(s[i])
    ensures r == [] || !IsWhitespace(r[0])
  {
    if |s| > 0 && IsWhitespace(s[0]) then TrimStart(s[1..]) else s
  }

  /** `str::trim_end`: drops the trailing whitespace and nothing else. */
  function TrimEnd(s: string): (r: string)
    ensures |r| <= |s| && r == s[..|r|]
    ensures forall i :: |r| <= i < |s| ==> IsWhitespace(s[i])
    ensures r == [] || !IsWhitespace(r[|r| - 1])
  {
    if |s| > 0 && IsWhitespace(s[|s| - 1]) then TrimEnd(s[..|s| - 1]) else s
  }

  /** `str::trim`. */
  function Trim(s: string): (r: string)
    ensures |r| <= |s|
    ensures r == [] <==> forall i :: 0 <= i < |s| ==> IsWhitespace(s[i])
    ensures r == [] || (!IsWhitespace(r[0]) && !IsWhitespace(r[|r| - 1]))
    ensures (|s| == 0 || (!IsWhitespace(s[0]) && !IsWhitespace(s[|s| - 1]))) ==> r == s
  {
    var t := TrimStart(s);
    var r := TrimEnd(t);
    assert r == [] ==> t == [];
    assert r != [] ==> r[0] == t[0];
    r
  }

  /** Trimming twice is trimming once. */
  lemma TrimIdempotent(s: string)
    ensures Trim(Trim(s)) == Trim(s)
  {
  }

  predicate AllWhitespace(s: string) {
    forall i :: 0 <= i < |s| ==> IsWhitespace(s[i])
  }

  /** `TrimStart` drops exactly a whitespace prefix in front of a piece that
      does not start with whitespace. */
  lemma {:induction false} TrimStartPast(ws: string, q: string)
    requires AllWhitespace(ws)
    requires q == [] || !IsWhitespace(q[0])
    ensures TrimStart(ws + q) == q
  {
    if |ws| > 0 {
      TrimStartPast(ws[1..], q);
      assert (ws + q)[0] == ws[0] && IsWhitespace(ws[0]);
      assert (ws + q)[1..] == ws[1..] + q;
    } else {
      assert ws + q == q;
    }
  }

  /** `TrimEnd` drops exactly a whitespace suffix behind a piece that does
      not end with whitespace. */
  lemma {:induction false} TrimEndPast(q: string, ws: string)
    requires AllWhitespace(ws)
    requires q == [] || !IsWhitespace(q[|q| - 1])
    ensures TrimEnd(q + ws) == q
  {
    if |ws| > 0 {
      TrimEndPast(q, ws[..|ws| - 1]);
      assert (q + ws)[|q + ws| - 1] == ws[|ws| - 1] && IsWhitespace(ws[|ws| - 1]);
      assert (q + ws)[..|q + ws| - 1] == q + ws[..|ws| - 1];
    } else {
      assert q + ws == q;
    }
  }

  /** Whitespace around a trimmed piece is all that `Trim` removes. */
  lemma TrimPadded(before: string, p: string, after: string)
    requires AllWhitespace(before) && AllWhitespace(after)
    requires p == [] || (!IsWhitespace(p[0]) && !IsWhitespace(p[|p| - 1]))
    ensures Trim(before + p + after) == p
  {
    var s := before + p + after;
    if p == [] {
      assert forall i :: 0 <= i < |s| ==> IsWhitespace(s[i]) by {
        assert s == before + after;
      }
    } else {
      assert s == before + (p + after);
      TrimStartPast(before, p + after);
      TrimEndPast(p, after);
    }
  }

  /** Number of occurrences of `c` in `s`. */
  function Count(s: string, c: char): nat {
    if |s| == 0 then 0 else (if s[0] == c then 1 else 0) + Count(s[1..], c)
  }

  /** `join`: the pieces with one `sep` between neighbours. */
  function Join(pieces: seq<string>, sep: char): string {
    if |pieces| == 0 then ""
    else if |pieces| == 1 then pieces[0]
    else pieces[0] + [sep] + Join(pieces[1..], sep)
  }

  /** `str::split` on a single character: every maximal run between
      separators, including empty ones, so there is always one more piece
      than there are separators. */
  function Split(s: string, sep: char): (pieces: seq<string>)
    ensures |pieces| == Count(s, sep) + 1
    ensures forall i :: 0 <= i < |pieces| ==> sep !in pieces[i]
    ensures Join(pieces, sep) == s
  {
    if |s| == 0 then [""]
    else
      var rest := Split(s[1..], sep);
      if s[0] == sep then
        assert ([""] + rest)[1..] == rest;
        [""] + rest
      else
        var pieces := [[s[0]] + rest[0]] + rest[1..];
        assert pieces[1..] == rest[1..];
        assert |rest| > 1 ==> Join(rest, sep) == rest[0] + [sep] + Join(rest[1..], sep);
        assert s == [s[0]] + s[1..];
        pieces
  }

  /** A piece without separators splits to itself. */
  lemma {:induction false} SplitWithoutSeparator(p: string, sep: char)
    requires sep !in p
    ensures Split(p, sep) == [p]
  {
    if |p| > 0 {
      SplitWithoutSeparator(p[1..], sep);
      assert [p[0]] + p[1..] == p;
    }
  }

  /** Splitting stops at the first separator. */
  lemma {:induction false} SplitAtFirstSeparator(p: string, sep: char, t: string)
    requires sep !in p
    ensures Split(p + [sep] + t, sep) == [p] + Split(t, sep)
  {
    var s := p + [sep] + t;
    if |p| == 0 {
      assert s[0] == sep && s[1..] == t;
    } else {
      assert s[0] == p[0] && p[0] != sep;
      assert s[1..] == p[1..] + [sep] + t;
      SplitAtFirstSeparator(p[1..], sep, t);
      var rest := Split(s[1..], sep);
      assert rest[0] == p[1..] && rest[1..] == Split(t, sep);
      assert [p[0]] + p[1..] == p;
      assert Split(s, sep) == [[s[0]] + rest[0]] + rest[1..];
    }
  }

  /** `Split` inverts `Join` on a non-empty list of separator-free pieces. */
  lemma {:induction false} SplitJoin(pieces: seq<string>, sep: char)
    requires |pieces| >= 1
    requires forall i :: 0 <= i < |pieces| ==> sep !in pieces[i]
    ensures Split(Join(pieces, sep), sep) == pieces
  {
    if |pieces| == 1 {
      SplitWithoutSeparator(pieces[0], sep);
    } else {
      SplitJoin(pieces[1..], sep);
      SplitAtFirstSeparator(pieces[0], sep, Join(pieces[1..], sep));
      assert [pieces[0]] + pieces[1..] == pieces;
    }
  }

  predicate IsDigit(c: char) {
    '0' <= c <= '9'
  }

  predicate AllDigits(s: string) {
    forall i :: 0 <= i < |s| ==> IsDigit(s[i])
  }

  function DigitValue(c: char): nat
    requires IsDigit(c)
  {
    c as int - '0' as int
  }

  function DigitChar(d: nat): (c: char)
    requires d < 10
    ensures IsDigit(c) && DigitValue(c) == d
  {
    ('0' as int + d) as char
  }

  /** The value of a string of decimal digits, most significant first. */
  function DigitsValue(s: string): nat
    requires AllDigits(s)
  {
    if |s| == 0 then 0 else 10 * DigitsValue(s[..|s| - 1]) + DigitValue(s[|s| - 1])
  }

  /** A decimal integer as Rust's `to_string` and JSON both write it: at
      least one digit, and no leading zero unless the number is zero. */
  predicate IsCanonicalDigits(s: string) {
    |s| >= 1 && AllDigits(s) && (s[0] == '0' ==> |s| == 1)
  }

  /** `u64::to_string`. */
  function Decimal(n: nat): (s: string)
    ensures IsCanonicalDigits(s)
    ensures DigitsValue(s) == n
  {
    if n < 10 then [DigitChar(n)]
    else
      var high := Decimal(n / 10);
      var s := high + [DigitChar(n % 10)];
      assert s[..|s| - 1] == high;
      assert high[0] == '0' ==> high == "0";
      s
  }

  /** A decimal numeral carries no whitespace, so trimming keeps it. */
  lemma DecimalIsTrimmed(n: nat)
    ensures Trim(Decimal(n)) == Decimal(n)
  {
    var s := Decimal(n);
    assert IsDigit(s[0]) && IsDigit(s[|s| - 1]);
  }

  /** A decimal numeral contains no separator. */
  lemma DecimalHasNoComma(n: nat)
    ensures ',' !in Decimal(n)
  {
  }
}
