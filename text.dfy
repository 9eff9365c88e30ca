/**
  The string primitives of Rust's standard library that the three codecs use,
  over `string` (`seq<char>`, one element per Unicode scalar value):
  `str::split` with a character or string pattern, `str::split_ascii_whitespace`,
  `str::trim`, `BufRead::read_line` and the UTF-8 byte length a `write` reports.
 */
module Text {

  predicate IsAsciiDigit(c: char) {
    '0' <= c <= '9'
  }

  /** `char::is_ascii_whitespace`: space, tab, line feed, form feed, carriage return (not vertical tab). */
  predicate IsAsciiWhitespace(c: char) {
    c == ' ' || c == '\t' || c == '\n' || c == '\U{000C}' || c == '\r'
  }

  /** `char::is_whitespace`: the Unicode White_Space property, which `str::trim` strips. */
  predicate IsWhitespace(c: char) {
    ('\t' <= c <= '\r') || c == ' ' || c == '\U{0085}' || c == '\U{00A0}' || c == '\U{1680}'
    || ('\U{2000}' <= c <= '\U{200A}') || c == '\U{2028}' || c == '\U{2029}' || c == '\U{202F}'
    || c == '\U{205F}' || c == '\U{3000}'
  }

  predicate HasAsciiDigit(s: string) {
    exists i :: 0 <= i < |s| && IsAsciiDigit(s[i])
  }

  predicate StartsWith(s: string, prefix: string) {
    |prefix| <= |s| && s[..|prefix|] == prefix
  }

  /** `s` holds `pat` somewhere as a contiguous piece. */
  predicate ContainsStr(s: string, pat: string)
    decreases |s|
  {
    StartsWith(s, pat) || (|s| > 0 && ContainsStr(s[1..], pat))
  }

  /** A text without the pattern's first character does not hold the pattern. */
  lemma {:induction false} NotContainsStr(s: string, pat: string)
    requires |pat| > 0 && pat[0] !in s
    ensures !ContainsStr(s, pat)
    decreases |s|
  {
    if |s| > 0 {
      assert forall c :: c in s[1..] ==> c in s;
      NotContainsStr(s[1..], pat);
      assert s[0] in s;
      assert |pat| <= |s| ==> s[..|pat|][0] != pat[0];
      assert !StartsWith(s, pat);
    }
  }

  /** Nor does one whose only occurrence of that character is its last, for a pattern longer than one. */
  lemma {:induction false} NotContainsStrEnd(a: string, c: char, pat: string)
    requires |pat| >= 2 && pat[0] !in a
    ensures !ContainsStr(a + [c], pat)
    decreases |a|
  {
    var s := a + [c];
    if |a| == 0 {
      assert s[1..] == [];
      assert !StartsWith(s[1..], pat);
    } else {
      assert s[0] == a[0];
      assert s[1..] == a[1..] + [c];
      assert forall x :: x in a[1..] ==> x in a;
      NotContainsStrEnd(a[1..], c, pat);
    }
  }

  /** Every character of `s` is (Unicode) whitespace. */
  predicate AllWhitespace(s: string) {
    forall i :: 0 <= i < |s| ==> IsWhitespace(s[i])
  }

  predicate AllAsciiWhitespace(s: string) {
    forall i :: 0 <= i < |s| ==> IsAsciiWhitespace(s[i])
  }

  // ---------------------------------------------------------------------------
  // Joining

  /** `[T]::join(sep)` on strings. */
  function Join(ps: seq<string>, sep: string): string
    decreases |ps|
  {
    if |ps| == 0 then "" else if |ps| == 1 then ps[0] else ps[0] + sep + Join(ps[1..], sep)
  }

  lemma AppendAssoc(a: string, b: string, c: string)
    ensures a + b + c == a + (b + c)
  {
  }

  /** The concatenation of all pieces. */
  function Concat(ps: seq<string>): string
    decreases |ps|
  {
    if |ps| == 0 then "" else ps[0] + Concat(ps[1..])
  }

  lemma {:induction false} ConcatAppend(a: seq<string>, b: seq<string>)
    ensures Concat(a + b) == Concat(a) + Concat(b)
    decreases |a|
  {
    if |a| == 0 {
      assert a + b == b;
    } else {
      assert (a + b)[1..] == a[1..] + b;
      ConcatAppend(a[1..], b);
    }
  }

  lemma ConcatSingle(s: string)
    ensures Concat([s]) == s
  {
  }

  // ---------------------------------------------------------------------------
  // str::split with a character pattern

  /** `str::split(c)`: the pieces between the occurrences of `c`; there is always at least one. */
  function Split(s: string, c: char): (r: seq<string>)
    ensures |r| >= 1
    decreases |s|
  {
    if |s| == 0 then [""]
    else
      var rest := Split(s[1..], c);
      if s[0] == c then [""] + rest else [[s[0]] + rest[0]] + rest[1..]
  }

  lemma {:induction false} SplitNoSeparator(s: string, c: char)
    requires c !in s
    ensures Split(s, c) == [s]
    decreases |s|
  {
    if |s| > 0 {
      SplitNoSeparator(s[1..], c);
      assert [s[0]] + s[1..] == s;
    }
  }

  /** Splitting at the first occurrence of the separator. */
  lemma {:induction false} SplitFirst(a: string, c: char, b: string)
    requires c !in a
    ensures Split(a + [c] + b, c) == [a] + Split(b, c)
    decreases |a|
  {
    if |a| == 0 {
      assert a + [c] + b == [c] + b;
      assert ([c] + b)[1..] == b;
    } else {
      var s := a + [c] + b;
      assert s[0] == a[0];
      assert s[1..] == a[1..] + [c] + b;
      SplitFirst(a[1..], c, b);
      assert [a[0]] + a[1..] == a;
    }
  }

  /** No piece of a split holds the separator. */
  lemma {:induction false} SplitPiecesFree(s: string, c: char)
    ensures forall k :: 0 <= k < |Split(s, c)| ==> c !in Split(s, c)[k]
    decreases |s|
  {
    if |s| > 0 {
      SplitPiecesFree(s[1..], c);
    }
  }

  /** Joining the pieces with the separator gives the split text back. */
  lemma {:induction false} JoinSplit(s: string, c: char)
    ensures Join(Split(s, c), [c]) == s
    decreases |s|
  {
    if |s| > 0 {
      var rest := Split(s[1..], c);
      JoinSplit(s[1..], c);
      if s[0] == c {
        assert Split(s, c) == [""] + rest;
        assert ([""] + rest)[1..] == rest;
        assert Join([""] + rest, [c]) == "" + [c] + Join(rest, [c]);
        assert [s[0]] + s[1..] == s;
      } else {
        var r := [[s[0]] + rest[0]] + rest[1..];
        assert Split(s, c) == r;
        if |rest| == 1 {
          assert Join(r, [c]) == [s[0]] + rest[0];
          assert Join(rest, [c]) == rest[0];
        } else {
          assert r[1..] == rest[1..];
          assert Join(r, [c]) == [s[0]] + rest[0] + [c] + Join(rest[1..], [c]);
          assert Join(rest, [c]) == rest[0] + [c] + Join(rest[1..], [c]);
        }
        assert [s[0]] + s[1..] == s;
      }
    }
  }

  /** Splitting the join of separator-free pieces gives the pieces back. */
  lemma {:induction false} SplitJoin(ps: seq<string>, c: char)
    requires |ps| >= 1
    requires forall k :: 0 <= k < |ps| ==> c !in ps[k]
    ensures Split(Join(ps, [c]), c) == ps
    decreases |ps|
  {
    if |ps| == 1 {
      SplitNoSeparator(ps[0], c);
    } else {
      SplitJoin(ps[1..], c);
      SplitFirst(ps[0], c, Join(ps[1..], [c]));
      assert [ps[0]] + ps[1..] == ps;
    }
  }

  /** The text before the first `c`: all of `s` when `c` does not occur. */
  function UntilChar(s: string, c: char): (r: string)
    ensures |r| <= |s| && r == s[..|r|]
    ensures c !in r
    ensures |r| < |s| ==> s[|r|] == c
    decreases |s|
  {
    if |s| == 0 || s[0] == c then "" else [s[0]] + UntilChar(s[1..], c)
  }

  lemma SplitAround<T>(s: seq<T>, i: nat)
    requires i < |s|
    ensures s == s[..i] + [s[i]] + s[i + 1..]
  {
  }

  /** The first piece of a split is the text before the first separator; the others split what follows it. */
  lemma SplitHead(s: string, c: char)
    ensures Split(s, c)[0] == UntilChar(s, c)
    ensures c in s ==> Split(s, c)[1..] == Split(s[|UntilChar(s, c)| + 1..], c)
    ensures c !in s ==> Split(s, c) == [s]
  {
    var u := UntilChar(s, c);
    if c in s {
      assert |u| < |s|;
      var rest := s[|u| + 1..];
      SplitAround(s, |u|);
      assert s == u + [c] + rest;
      SplitFirst(u, c, rest);
    } else {
      SplitNoSeparator(s, c);
      assert u == s;
    }
  }

  /** A split has a second piece exactly when the separator occurs; it runs up to the next one. */
  lemma SplitSecond(s: string, c: char)
    ensures Split(s, c)[0] == UntilChar(s, c)
    ensures c !in s ==> |Split(s, c)| == 1
    ensures c in s ==> |Split(s, c)| >= 2 && Split(s, c)[1] == UntilChar(s[|UntilChar(s, c)| + 1..], c)
  {
    SplitHead(s, c);
    if c in s {
      SplitHead(s[|UntilChar(s, c)| + 1..], c);
    }
  }

  lemma UntilCharFree(s: string, c: char)
    requires c !in s
    ensures UntilChar(s, c) == s
  {
  }

  lemma UntilCharOf(a: string, c: char, b: string)
    requires c !in a
    ensures UntilChar(a + [c] + b, c) == a
  {
    var s := a + [c] + b;
    var r := UntilChar(s, c);
    assert forall i :: 0 <= i < |a| ==> s[i] == a[i];
    assert s[|a|] == c;
    assert |r| == |a|;
    assert r == s[..|a|] == a;
  }

  /** A separator-free prefix joins the first piece of what follows it. */
  lemma {:induction false} SplitPrefix(p: string, s: string, c: char)
    requires c !in p
    ensures Split(p + s, c) == [p + Split(s, c)[0]] + Split(s, c)[1..]
    decreases |p|
  {
    if |p| == 0 {
      assert p + s == s && p + Split(s, c)[0] == Split(s, c)[0];
      assert Split(s, c) == [Split(s, c)[0]] + Split(s, c)[1..];
    } else {
      assert (p + s)[0] == p[0] && (p + s)[1..] == p[1..] + s;
      SplitPrefix(p[1..], s, c);
      assert [p[0]] + (p[1..] + Split(s, c)[0]) == p + Split(s, c)[0];
    }
  }

  /** A character absent from the text is absent from every piece. */
  lemma {:induction false} SplitPiecesWithout(s: string, c: char, d: char)
    requires d !in s
    ensures forall k :: 0 <= k < |Split(s, c)| ==> d !in Split(s, c)[k]
    decreases |s|
  {
    if |s| > 0 {
      assert forall x :: x in s[1..] ==> x in s;
      SplitPiecesWithout(s[1..], c, d);
    }
  }

  /** A character absent from the pieces and the separator is absent from the join. */
  lemma {:induction false} JoinWithout(xs: seq<string>, sep: string, d: char)
    requires d !in sep && forall k :: 0 <= k < |xs| ==> d !in xs[k]
    ensures d !in Join(xs, sep)
    decreases |xs|
  {
    if |xs| > 1 {
      JoinWithout(xs[1..], sep, d);
    }
  }

  /** Splitting at a separator splits both sides. */
  lemma {:induction false} SplitAppend(a: string, c: char, b: string)
    ensures Split(a + [c] + b, c) == Split(a, c) + Split(b, c)
    decreases |a|
  {
    var u := UntilChar(a, c);
    if c in a {
      var a2 := a[|u| + 1..];
      assert a == u + [c] + a2;
      assert a + [c] + b == u + [c] + (a2 + [c] + b);
      SplitFirst(u, c, a2 + [c] + b);
      SplitFirst(u, c, a2);
      SplitAppend(a2, c, b);
    } else {
      SplitNoSeparator(a, c);
      SplitFirst(a, c, b);
    }
  }

  /** Joining two non-empty lists puts one separator between their joins. */
  lemma {:induction false} JoinAppend(xs: seq<string>, ys: seq<string>, sep: string)
    requires |xs| > 0 && |ys| > 0
    ensures Join(xs + ys, sep) == Join(xs, sep) + sep + Join(ys, sep)
    decreases |xs|
  {
    if |xs| == 1 {
      assert (xs + ys)[1..] == ys;
    } else {
      assert (xs + ys)[1..] == xs[1..] + ys;
      JoinAppend(xs[1..], ys, sep);
    }
  }

  // ---------------------------------------------------------------------------
  // str::split with a string pattern

  /** `str::split(pat)` for a non-empty pattern: leftmost non-overlapping matches. */
  function SplitStr(s: string, pat: string): (r: seq<string>)
    requires |pat| > 0
    ensures |r| >= 1
    decreases |s|
  {
    if |s| == 0 then [""]
    else if StartsWith(s, pat) then [""] + SplitStr(s[|pat|..], pat)
    else
      var rest := SplitStr(s[1..], pat);
      [[s[0]] + rest[0]] + rest[1..]
  }

  lemma {:induction false} SplitStrNoMatch(s: string, pat: string)
    requires |pat| > 0 && !ContainsStr(s, pat)
    ensures SplitStr(s, pat) == [s]
    decreases |s|
  {
    if |s| > 0 {
      SplitStrNoMatch(s[1..], pat);
      assert [s[0]] + s[1..] == s;
    }
  }

  /** A prefix that does not hold the pattern's first character ends at the first match. */
  lemma {:induction false} SplitStrFirst(a: string, pat: string, b: string)
    requires |pat| > 0 && pat[0] !in a
    ensures SplitStr(a + pat + b, pat) == [a] + SplitStr(b, pat)
    decreases |a|
  {
    var s := a + pat + b;
    if |a| == 0 {
      assert s == pat + b;
      assert StartsWith(s, pat);
      assert s[|pat|..] == b;
    } else {
      assert s[0] == a[0] && a[0] != pat[0];
      assert !StartsWith(s, pat);
      assert s[1..] == a[1..] + pat + b;
      SplitStrFirst(a[1..], pat, b);
      assert [a[0]] + a[1..] == a;
    }
  }

  // ---------------------------------------------------------------------------
  // str::split_ascii_whitespace

  /** The end of the run of non-whitespace characters that starts at `i`. */
  function TokenEnd(s: string, i: nat): (j: nat)
    requires i <= |s|
    ensures i <= j <= |s|
    ensures forall k :: i <= k < j ==> !IsAsciiWhitespace(s[k])
    ensures j == |s| || IsAsciiWhitespace(s[j])
    decreases |s| - i
  {
    if i == |s| || IsAsciiWhitespace(s[i]) then i else TokenEnd(s, i + 1)
  }

  /** `str::split_ascii_whitespace`: the maximal runs of non-ASCII-whitespace characters. */
  function Words(s: string): (r: seq<string>)
    decreases |s|
  {
    if |s| == 0 then []
    else if IsAsciiWhitespace(s[0]) then Words(s[1..])
    else
      var n := TokenEnd(s, 0);
      [s[..n]] + Words(s[n..])
  }

  /** A word: non-empty and free of ASCII whitespace. */
  predicate IsWord(w: string) {
    |w| > 0 && forall i :: 0 <= i < |w| ==> !IsAsciiWhitespace(w[i])
  }

  lemma {:induction false} WordsOfWord(w: string)
    requires IsWord(w)
    ensures Words(w) == [w]
  {
    assert TokenEnd(w, 0) == |w|;
    assert w[|w|..] == [];
    assert w[..|w|] == w;
  }

  /** A word followed by a space and more text. */
  lemma {:induction false} WordsCons(w: string, rest: string)
    requires IsWord(w)
    ensures Words(w + " " + rest) == [w] + Words(rest)
  {
    var s := w + " " + rest;
    var n := TokenEnd(s, 0);
    assert s[|w|] == ' ';
    assert forall k :: 0 <= k < |w| ==> s[k] == w[k];
    assert n == |w|;
    assert s[..n] == w;
    assert s[n..][1..] == rest;
    assert s[n..][0] == ' ';
  }

  // ---------------------------------------------------------------------------
  // str::trim

  function TrimStart(s: string): (r: string)
    ensures |r| <= |s|
    decreases |s|
  {
    if |s| > 0 && IsWhitespace(s[0]) then TrimStart(s[1..]) else s
  }

  function TrimEnd(s: string): (r: string)
    ensures |r| <= |s|
    decreases |s|
  {
    if |s| > 0 && IsWhitespace(s[|s| - 1]) then TrimEnd(s[..|s| - 1]) else s
  }

  /** `str::trim`: leading and trailing Unicode whitespace removed. */
  function Trim(s: string): string {
    TrimEnd(TrimStart(s))
  }

  /** Text that neither starts nor ends with whitespace is left alone by `trim`. */
  predicate Trimmed(s: string) {
    |s| == 0 || (!IsWhitespace(s[0]) && !IsWhitespace(s[|s| - 1]))
  }

  lemma TrimOfTrimmed(s: string)
    requires Trimmed(s)
    ensures Trim(s) == s
  {
  }

  /** `trim` leaves nothing exactly when every character is whitespace. */
  lemma {:induction false} TrimEmpty(s: string)
    ensures Trim(s) == "" <==> AllWhitespace(s)
  {
    TrimStartEmpty(s);
    TrimEndEmpty(TrimStart(s));
  }

  lemma {:induction false} TrimStartEmpty(s: string)
    ensures |TrimStart(s)| == 0 <==> AllWhitespace(s)
    ensures |TrimStart(s)| > 0 ==> !IsWhitespace(TrimStart(s)[0])
    decreases |s|
  {
    if |s| > 0 && IsWhitespace(s[0]) {
      TrimStartEmpty(s[1..]);
      if AllWhitespace(s[1..]) {
        forall i | 0 <= i < |s| ensures IsWhitespace(s[i]) {
          if i > 0 { assert s[i] == s[1..][i - 1]; }
        }
      }
    }
  }

  lemma {:induction false} TrimEndEmpty(s: string)
    ensures |TrimEnd(s)| == 0 <==> AllWhitespace(s)
    decreases |s|
  {
    if |s| > 0 && IsWhitespace(s[|s| - 1]) {
      TrimEndEmpty(s[..|s| - 1]);
      if AllWhitespace(s[..|s| - 1]) {
        forall i | 0 <= i < |s| ensures IsWhitespace(s[i]) {
          if i < |s| - 1 { assert s[i] == s[..|s| - 1][i]; }
        }
      }
    }
  }

  // ---------------------------------------------------------------------------
  // Lines (BufRead::read_line) and written bytes

  /**
    The successive lines that `BufRead::read_line` returns for the text `t`, each
    without its terminating '\n'; a final piece without '\n' is a line too.
   */
  function Lines(t: string): seq<string> {
    var ps := Split(t, '\n');
    if ps[|ps| - 1] == "" then ps[..|ps| - 1] else ps
  }

  /** Each line followed by '\n'. */
  function Unlines(ls: seq<string>): string
    decreases |ls|
  {
    if |ls| == 0 then "" else ls[0] + "\n" + Unlines(ls[1..])
  }

  predicate NoNewline(s: string) {
    '\n' !in s
  }

  lemma {:induction false} UnlinesAppend(a: seq<string>, b: seq<string>)
    ensures Unlines(a + b) == Unlines(a) + Unlines(b)
    decreases |a|
  {
    if |a| == 0 {
      assert a + b == b;
    } else {
      assert (a + b)[1..] == a[1..] + b;
      UnlinesAppend(a[1..], b);
    }
  }

  lemma UnlinesSnoc(ls: seq<string>, l: string)
    ensures Unlines(ls + [l]) == Unlines(ls) + l + "\n"
  {
    UnlinesAppend(ls, [l]);
    assert [l][1..] == [];
  }

  lemma {:induction false} UnlinesAsJoin(ls: seq<string>)
    ensures Unlines(ls) == Join(ls + [""], "\n")
    decreases |ls|
  {
    if |ls| > 0 {
      UnlinesAsJoin(ls[1..]);
      assert (ls + [""])[1..] == ls[1..] + [""];
    }
  }

  /** Reading back text written line by line gives the lines back. */
  lemma LinesUnlines(ls: seq<string>)
    requires forall k :: 0 <= k < |ls| ==> NoNewline(ls[k])
    ensures Lines(Unlines(ls)) == ls
  {
    var t := Unlines(ls);
    var ps := ls + [""];
    UnlinesAsJoin(ls);
    NoNewlineLast(ls);
    SplitJoin(ps, '\n');
    assert Split(t, '\n') == ps;
    assert ps[|ps| - 1] == "" && ps[..|ps| - 1] == ls;
  }

  lemma NoNewlineLast(ls: seq<string>)
    requires forall k :: 0 <= k < |ls| ==> NoNewline(ls[k])
    ensures forall k :: 0 <= k < |ls + [""]| ==> '\n' !in (ls + [""])[k]
  {
    var ps := ls + [""];
    forall k | 0 <= k < |ps| ensures '\n' !in ps[k] {
      if k < |ls| {
        assert ps[k] == ls[k];
      }
    }
  }

  /** The number of bytes of the UTF-8 encoding of one character. */
  function Utf8Width(c: char): nat {
    if c as int < 0x80 then 1 else if c as int < 0x800 then 2 else if c as int < 0x10000 then 3 else 4
  }

  /** The byte count `Write::write` returns for `s.as_bytes()`. */
  function Utf8Len(s: string): nat
    decreases |s|
  {
    if |s| == 0 then 0 else Utf8Width(s[0]) + Utf8Len(s[1..])
  }

  lemma {:induction false} Utf8LenAppend(a: string, b: string)
    ensures Utf8Len(a + b) == Utf8Len(a) + Utf8Len(b)
    decreases |a|
  {
    if |a| > 0 {
      assert (a + b)[1..] == a[1..] + b;
      Utf8LenAppend(a[1..], b);
    } else {
      assert a + b == b;
    }
  }

  /** ASCII text has as many bytes as characters. */
  lemma {:induction false} Utf8LenAscii(s: string)
    requires forall i :: 0 <= i < |s| ==> s[i] as int < 0x80
    ensures Utf8Len(s) == |s|
    decreases |s|
  {
    if |s| > 0 {
      Utf8LenAscii(s[1..]);
    }
  }

  /** `str::replace(c, "")`: every occurrence of `c` removed. */
  function RemoveChar(s: string, c: char): (r: string)
    ensures c !in r
    decreases |s|
  {
    if |s| == 0 then "" else (if s[0] == c then "" else [s[0]]) + RemoveChar(s[1..], c)
  }

  lemma {:induction false} RemoveCharAbsent(s: string, c: char)
    requires c !in s
    ensures RemoveChar(s, c) == s
    decreases |s|
  {
    if |s| > 0 {
      RemoveCharAbsent(s[1..], c);
      assert [s[0]] + s[1..] == s;
    }
  }

  lemma {:induction false} RemoveCharAppend(a: string, b: string, c: char)
    ensures RemoveChar(a + b, c) == RemoveChar(a, c) + RemoveChar(b, c)
    decreases |a|
  {
    if |a| == 0 {
      assert a + b == b;
    } else {
      assert (a + b)[1..] == a[1..] + b;
      RemoveCharAppend(a[1..], b, c);
    }
  }

  /** Taking the newlines out of newline-free pieces joined by '\n' concatenates them. */
  lemma {:induction false} RemoveNewlinesJoin(ls: seq<string>)
    requires forall k :: 0 <= k < |ls| ==> '\n' !in ls[k]
    ensures RemoveChar(Join(ls, "\n"), '\n') == Concat(ls)
    decreases |ls|
  {
    if |ls| == 1 {
      RemoveCharAbsent(ls[0], '\n');
      assert Concat(ls) == ls[0] + Concat([]);
    } else if |ls| > 1 {
      RemoveNewlinesJoin(ls[1..]);
      RemoveCharAbsent(ls[0], '\n');
      RemoveCharAppend(ls[0] + "\n", Join(ls[1..], "\n"), '\n');
      RemoveCharAppend(ls[0], "\n", '\n');
    }
  }

  /** Words joined by a separator free of whitespace form one word, starting with the first word's first character. */
  lemma {:induction false} JoinOfWords(ps: seq<string>, sep: string)
    requires |ps| >= 1 && forall k :: 0 <= k < |ps| ==> IsWord(ps[k])
    requires forall i :: 0 <= i < |sep| ==> !IsAsciiWhitespace(sep[i])
    ensures IsWord(ps[0]) && IsWord(Join(ps, sep)) && Join(ps, sep)[0] == ps[0][0]
    decreases |ps|
  {
    if |ps| > 1 {
      JoinOfWords(ps[1..], sep);
      var r := Join(ps[1..], sep);
      var j := ps[0] + sep + r;
      assert Join(ps, sep) == j;
      forall i | 0 <= i < |j| ensures !IsAsciiWhitespace(j[i]) {
        if i < |ps[0]| {
          assert j[i] == ps[0][i];
        } else if i < |ps[0]| + |sep| {
          assert j[i] == sep[i - |ps[0]|];
        } else {
          assert j[i] == r[i - |ps[0]| - |sep|];
        }
      }
    }
  }
}
