/**
  Laws that connect the MGF writer and reader. A file the writer writes is read
  back block by block into the texts it wrote, and each block parses back to
  the spectrum, its lists cut to the pairs that were written, as long as the
  charge can be read back.

  The charge cannot be read back as written: `write_spectrum` writes it as the
  number followed by its sign, and `create_spectrum` parses the whole value as
  an `i8`. So a charged spectrum is read back as `ChargeNotInteger`. A negative
  charge also carries its minus sign twice (`-2-` for -2). `ShowChargeFixed`
  (the magnitude followed by the sign, as MGF files write charges) and
  `ParseChargeFixed` (which also accepts a trailing sign) correct this, and
  with them every written file reads back.

  What a written file needs: a title without line breaks that does not end in
  whitespace, since `next` trims lines; m/z values whose text starts with a
  digit on the written peak lines, since that is how `next` recognises them; a
  float syntax that round-trips and shows single tokens; and a numeric table
  that agrees with Unicode's on Latin-1.
 */
module MgfFileLaws {
  import opened Base
  import opened Text
  import opened Decimal
  import opened Floats
  import opened MgfSpectra
  import opened MgfReading
  import opened MgfReaderLaws
  import opened MgfWriting

  // ---------------------------------------------------------------------------
  // The charge as written and as read

  function Magnitude(c: I8): nat {
    if c < 0 then -(c as int) else c as int
  }

  /** The charge as MGF writes it: the magnitude, then `-` when it is negative and `+` otherwise. */
  function ShowChargeFixed(c: I8): string {
    NatToString(Magnitude(c)) + (if c < 0 then "-" else "+")
  }

  /** The charge read as MGF writes it (`2+`, `3-`), and otherwise as `parse::<i8>()` reads it. */
  function ParseChargeFixed(s: string): Option<I8> {
    if |s| > 0 && (s[|s| - 1] == '+' || s[|s| - 1] == '-') then
      var digits := s[..|s| - 1];
      if |digits| > 0 && AllDigits(digits) then
        var v := if s[|s| - 1] == '-' then -(DigitsValue(digits) as int) else DigitsValue(digits);
        if I8_MIN <= v <= I8_MAX then Some(v) else None
      else None
    else ParseCharge(s)
  }

  /** The written charge as written: its text does not parse as an `i8`, whatever the charge. */
  lemma ChargeNotReadBack(c: I8)
    ensures ParseCharge(ShowCharge(c)) == None
  {
    var t := ShowCharge(c);
    var body := if |t| > 0 && (t[0] == '-' || t[0] == '+') then t[1..] else t;
    assert |IntToString(c)| >= 1;
    assert t[|t| - 1] == '+' || t[|t| - 1] == '-';
    assert body[|body| - 1] == t[|t| - 1];
    assert !AllDigits(body);
  }

  /** The negative charge -2 is written `-2-`: the part before the final sign is not a run of digits. */
  lemma NegativeChargeWrittenTwice()
    ensures ShowCharge(-2) == "-2-"
    ensures var t := ShowCharge(-2); !AllDigits(t[..|t| - 1])
  {
    assert NatToString(2) == "2";
    var t := ShowCharge(-2);
    assert t[0] == '-';
  }

  /** The corrected text is the magnitude's digits followed by the sign of the charge. */
  lemma ChargeFixedShape(c: I8)
    ensures var t := ShowChargeFixed(c);
            |t| >= 2 && AllDigits(t[..|t| - 1]) && DigitsValue(t[..|t| - 1]) == Magnitude(c)
            && t[|t| - 1] == (if c < 0 then '-' else '+')
  {
    var n := Magnitude(c);
    var t := ShowChargeFixed(c);
    assert t[..|t| - 1] == NatToString(n);
    NatToStringValue(n);
  }

  /** Every charge the corrected writer writes is read back by the corrected reader. */
  lemma ChargeFixedRoundTrip(c: I8)
    ensures ParseChargeFixed(ShowChargeFixed(c)) == Some(c)
  {
    ChargeFixedShape(c);
  }

  /** The corrected writer agrees with the writer on the charges that are not negative. */
  lemma ShowChargeAgrees(c: I8)
    requires c >= 0
    ensures ShowCharge(c) == ShowChargeFixed(c)
  {
  }

  /** The corrected reader reads every charge `parse::<i8>()` reads, to the same value. */
  lemma ParseChargeFixedExtends(s: string)
    requires ParseCharge(s).Some?
    ensures ParseChargeFixed(s) == ParseCharge(s)
  {
    var body := if |s| > 0 && (s[0] == '-' || s[0] == '+') then s[1..] else s;
    assert |body| > 0 && AllDigits(body);
    assert s[|s| - 1] == body[|body| - 1];
  }

  /** Both charge texts are single tokens. */
  lemma ChargeTokens(c: I8)
    ensures Token(ShowCharge(c)) && Token(ShowChargeFixed(c))
  {
    var n := NatToString(Magnitude(c));
    assert forall i :: 0 <= i < |n| ==> IsAsciiDigit(n[i]);
    if c < 0 {
      assert ShowCharge(c) == "-" + n + "-";
    }
  }

  // ---------------------------------------------------------------------------
  // What a written block is read as

  /** A value that can end a written line: no line break, and no whitespace at the end for `trim` to strip. */
  predicate OneLine(v: string) {
    NoNewline(v) && (|v| == 0 || !IsWhitespace(v[|v| - 1]))
  }

  /** What a spectrum needs for its block to be read back as it was written. */
  ghost predicate Writable(s: Spectrum, fs: FloatSyntax) {
    OneLine(s.title)
    && forall k :: 0 <= k < ZipLen(s.mzList, s.intensityList) ==> ShowsDigitFirst(fs, s.mzList[k])
  }

  /** What the reader's line tests need: a float syntax and a numeric table that behave. */
  ghost predicate Readable(fs: FloatSyntax, numeric: char -> bool) {
    WellBehaved(fs) && NumericTable(numeric)
  }

  /** Each value displayed, in order. */
  function Shows(xs: seq<real>, fs: FloatSyntax): (r: seq<string>)
    ensures |r| == |xs| && forall k :: 0 <= k < |xs| ==> r[k] == fs.show(xs[k])
  {
    seq(|xs|, k requires 0 <= k < |xs| => fs.show(xs[k]))
  }

  function MapShow(o: Option<real>, fs: FloatSyntax): Option<string> {
    if o.Some? then Some(fs.show(o.value)) else None
  }

  function MapCharge(o: Option<I8>, showCharge: I8 -> string): Option<string> {
    if o.Some? then Some(showCharge(o.value)) else None
  }

  /** The peak lines as `next` classifies them: two words each. */
  function PeakItems(ms: seq<string>, ns: seq<string>): (r: seq<MgfLine>)
    requires |ms| == |ns|
    ensures |r| == |ms| && forall k :: 0 <= k < |ms| ==> r[k] == Peak([ms[k], ns[k]])
  {
    seq(|ms|, k requires 0 <= k < |ms| => Peak([ms[k], ns[k]]))
  }

  /** The written lines as `next` classifies them, part by part. */
  function HeadItems(title: string, precursorMz: string): seq<MgfLine> {
    [BeginIons, Title(title), PepMass(precursorMz)]
  }

  function OptionalItems(precursorCharge: Option<I8>, retentionTime: Option<real>, fs: FloatSyntax,
                         showCharge: I8 -> string): seq<MgfLine> {
    (if retentionTime.Some? then [RtInSeconds(fs.show(retentionTime.value))] else [])
    + (if precursorCharge.Some? then [Charge(showCharge(precursorCharge.value))] else [])
  }

  function HeaderItems(s: Spectrum, fs: FloatSyntax, showCharge: I8 -> string): seq<MgfLine> {
    HeadItems(s.title, fs.show(s.precursorMz)) + OptionalItems(s.precursorCharge, s.retentionTime, fs, showCharge)
  }

  function WrittenPeaks(s: Spectrum, fs: FloatSyntax): seq<MgfLine> {
    var z := ZipLen(s.mzList, s.intensityList);
    PeakItems(Shows(s.mzList[..z], fs), Shows(s.intensityList[..z], fs))
  }

  /** The written block's lines before `END IONS`. */
  function BodyItems(s: Spectrum, fs: FloatSyntax, showCharge: I8 -> string): seq<MgfLine> {
    HeaderItems(s, fs, showCharge) + WrittenPeaks(s, fs)
  }

  function BlockItems(s: Spectrum, fs: FloatSyntax, showCharge: I8 -> string): seq<MgfLine> {
    BodyItems(s, fs, showCharge) + [EndIons]
  }

  /** The texts `next` gathers from a written block. */
  function PendingOf(s: Spectrum, fs: FloatSyntax, showCharge: I8 -> string): Pending {
    var z := ZipLen(s.mzList, s.intensityList);
    Pending(true, s.title, fs.show(s.precursorMz), MapCharge(s.precursorCharge, showCharge),
            MapShow(s.retentionTime, fs), Shows(s.mzList[..z], fs), Shows(s.intensityList[..z], fs))
  }

  /** The spectrum as it is written: its lists cut to the pairs `zip` makes. */
  function Zipped(s: Spectrum): Spectrum {
    var z := ZipLen(s.mzList, s.intensityList);
    s.(mzList := s.mzList[..z], intensityList := s.intensityList[..z])
  }

  // Classifying the written lines

  lemma NotPrefixed(t: string, p: string)
    requires |t| > 0 && |p| > 0 && t[0] != p[0]
    ensures !StartsWith(t, p)
  {
    if |p| <= |t| {
      assert t[..|p|][0] != p[0];
    }
  }

  /** A `KEY=value` line is left alone by `trim`, starts with its key, and holds its value after it. */
  lemma KeyedLine(p: string, v: string)
    requires |p| > 0 && NoNewline(p) && !IsWhitespace(p[0]) && !IsWhitespace(p[|p| - 1]) && OneLine(v)
    ensures var t := p + v; Trim(t) == t && t[0] == p[0] && StartsWith(t, p) && t[|p|..] == v && NoNewline(t)
  {
    var t := p + v;
    assert t[..|p|] == p && t[|p|..] == v;
    assert t[|t| - 1] == if |v| == 0 then p[|p| - 1] else v[|v| - 1];
    TrimOfTrimmed(t);
  }

  lemma TokenLine(v: string)
    requires Token(v)
    ensures OneLine(v)
  {
    TokenIsWord(v);
  }

  lemma LetterNotNumeric(c: char, numeric: char -> bool)
    requires NumericTable(numeric) && 'A' <= c <= 'Z'
    ensures !numeric(c)
  {
    assert c as int < 0x100 && !Latin1Numeric(c);
  }

  lemma ClassifyTitle(v: string, numeric: char -> bool)
    requires NumericTable(numeric) && OneLine(v)
    ensures Classify("TITLE=" + v, numeric) == Title(v) && NoNewline("TITLE=" + v)
  {
    KeyedLine("TITLE=", v);
    LetterNotNumeric('T', numeric);
  }

  lemma ClassifyPepMass(v: string, numeric: char -> bool)
    requires NumericTable(numeric) && OneLine(v)
    ensures Classify("PEPMASS=" + v, numeric) == PepMass(v) && NoNewline("PEPMASS=" + v)
  {
    var t := "PEPMASS=" + v;
    KeyedLine("PEPMASS=", v);
    LetterNotNumeric('P', numeric);
    NotPrefixed(t, "TITLE=");
  }

  lemma ClassifyRtInSeconds(v: string, numeric: char -> bool)
    requires NumericTable(numeric) && OneLine(v)
    ensures Classify("RTINSECONDS=" + v, numeric) == RtInSeconds(v) && NoNewline("RTINSECONDS=" + v)
  {
    var t := "RTINSECONDS=" + v;
    KeyedLine("RTINSECONDS=", v);
    LetterNotNumeric('R', numeric);
    NotPrefixed(t, "TITLE=");
    NotPrefixed(t, "PEPMASS=");
  }

  lemma ClassifyCharge(v: string, numeric: char -> bool)
    requires NumericTable(numeric) && OneLine(v)
    ensures Classify("CHARGE=" + v, numeric) == Charge(v) && NoNewline("CHARGE=" + v)
  {
    var t := "CHARGE=" + v;
    KeyedLine("CHARGE=", v);
    LetterNotNumeric('C', numeric);
    NotPrefixed(t, "TITLE=");
    NotPrefixed(t, "PEPMASS=");
    NotPrefixed(t, "RTINSECONDS=");
  }

  lemma ClassifyBeginIons(numeric: char -> bool)
    requires NumericTable(numeric)
    ensures Classify("BEGIN IONS", numeric) == BeginIons && NoNewline("BEGIN IONS")
  {
    var t := "BEGIN IONS";
    TrimOfTrimmed(t);
    LetterNotNumeric('B', numeric);
    NotPrefixed(t, "TITLE=");
    NotPrefixed(t, "PEPMASS=");
    NotPrefixed(t, "RTINSECONDS=");
    NotPrefixed(t, "CHARGE=");
  }

  lemma ClassifyEndIons(numeric: char -> bool)
    requires NumericTable(numeric)
    ensures Classify("END IONS", numeric) == EndIons && NoNewline("END IONS")
  {
    var t := "END IONS";
    TrimOfTrimmed(t);
    LetterNotNumeric('E', numeric);
    NotPrefixed(t, "TITLE=");
    NotPrefixed(t, "PEPMASS=");
    NotPrefixed(t, "RTINSECONDS=");
    NotPrefixed(t, "CHARGE=");
    assert t[0] != "BEGIN IONS"[0];
  }

  /** A peak line starts with a digit, so `next` takes its two words. */
  lemma ClassifyPeak(mz: real, intensity: real, fs: FloatSyntax, numeric: char -> bool)
    requires Readable(fs, numeric) && ShowsDigitFirst(fs, mz)
    ensures Classify(PeakLine(mz, intensity, fs), numeric) == Peak([fs.show(mz), fs.show(intensity)])
    ensures NoNewline(PeakLine(mz, intensity, fs))
  {
    var a := fs.show(mz);
    var b := fs.show(intensity);
    ShowIsToken(fs, mz);
    ShowIsToken(fs, intensity);
    TokenIsWord(a);
    TokenIsWord(b);
    var t := a + " " + b;
    assert t[0] == a[0] && t[|t| - 1] == b[|b| - 1];
    TrimOfTrimmed(t);
    assert a[0] as int < 0x100 && Latin1Numeric(a[0]);
    WordsCons(a, b);
    WordsOfWord(b);
  }

  lemma ClassifiedAppend(a: seq<string>, b: seq<string>, numeric: char -> bool)
    ensures Classified(a + b, numeric) == Classified(a, numeric) + Classified(b, numeric)
  {
  }

  /** No line holds a line break. */
  predicate Unbroken(ls: seq<string>) {
    forall k :: 0 <= k < |ls| ==> NoNewline(ls[k])
  }

  lemma UnbrokenAppend(a: seq<string>, b: seq<string>)
    requires Unbroken(a) && Unbroken(b)
    ensures Unbroken(a + b)
  {
    forall k | 0 <= k < |a + b| ensures NoNewline((a + b)[k]) {
      if k >= |a| {
        assert (a + b)[k] == b[k - |a|];
      }
    }
  }

  lemma ClassifiedPeaks(s: Spectrum, fs: FloatSyntax, numeric: char -> bool)
    requires Readable(fs, numeric) && Writable(s, fs)
    ensures Classified(PeakLines(s.mzList, s.intensityList, fs), numeric) == WrittenPeaks(s, fs)
    ensures Unbroken(PeakLines(s.mzList, s.intensityList, fs))
  {
    var ls := PeakLines(s.mzList, s.intensityList, fs);
    forall k | 0 <= k < |ls|
      ensures Classify(ls[k], numeric) == Peak([fs.show(s.mzList[k]), fs.show(s.intensityList[k])])
      ensures NoNewline(ls[k])
    {
      ClassifyPeak(s.mzList[k], s.intensityList[k], fs, numeric);
    }
  }

  lemma ClassifiedHead(title: string, precursorMz: real, fs: FloatSyntax, numeric: char -> bool)
    requires Readable(fs, numeric) && OneLine(title)
    ensures var ls := HeadLines(title, fs.show(precursorMz));
            Classified(ls, numeric) == HeadItems(title, fs.show(precursorMz)) && Unbroken(ls)
  {
    var m := fs.show(precursorMz);
    ShowIsToken(fs, precursorMz);
    TokenLine(m);
    ClassifyBeginIons(numeric);
    ClassifyTitle(title, numeric);
    ClassifyPepMass(m, numeric);
  }

  lemma ClassifiedOptional(precursorCharge: Option<I8>, retentionTime: Option<real>, fs: FloatSyntax,
                           showCharge: I8 -> string, numeric: char -> bool)
    requires Readable(fs, numeric)
    requires precursorCharge.Some? ==> Token(showCharge(precursorCharge.value))
    ensures var ls := OptionalLines(precursorCharge, retentionTime, fs, showCharge);
            Classified(ls, numeric) == OptionalItems(precursorCharge, retentionTime, fs, showCharge) && Unbroken(ls)
  {
    var rl := if retentionTime.Some? then ["RTINSECONDS=" + fs.show(retentionTime.value)] else [];
    var cl := if precursorCharge.Some? then ["CHARGE=" + showCharge(precursorCharge.value)] else [];
    if retentionTime.Some? {
      var r := fs.show(retentionTime.value);
      ShowIsToken(fs, retentionTime.value);
      TokenLine(r);
      ClassifyRtInSeconds(r, numeric);
    }
    if precursorCharge.Some? {
      var c := showCharge(precursorCharge.value);
      TokenLine(c);
      ClassifyCharge(c, numeric);
    }
    ClassifiedAppend(rl, cl, numeric);
    UnbrokenAppend(rl, cl);
  }

  /** A written block as `next` classifies it. */
  lemma ClassifiedBlock(s: Spectrum, fs: FloatSyntax, showCharge: I8 -> string, numeric: char -> bool)
    requires Readable(fs, numeric) && Writable(s, fs)
    requires s.precursorCharge.Some? ==> Token(showCharge(s.precursorCharge.value))
    ensures var ls := BlockLines(s, fs, showCharge);
            Classified(ls, numeric) == BlockItems(s, fs, showCharge) && Unbroken(ls)
  {
    var hl := HeadLines(s.title, fs.show(s.precursorMz));
    var ol := OptionalLines(s.precursorCharge, s.retentionTime, fs, showCharge);
    var pl := PeakLines(s.mzList, s.intensityList, fs);
    ClassifiedHead(s.title, s.precursorMz, fs, numeric);
    ClassifiedOptional(s.precursorCharge, s.retentionTime, fs, showCharge, numeric);
    ClassifiedPeaks(s, fs, numeric);
    ClassifyEndIons(numeric);
    ClassifiedAppend(hl, ol, numeric);
    ClassifiedAppend(hl + ol, pl, numeric);
    ClassifiedAppend(hl + ol + pl, ["END IONS"], numeric);
    UnbrokenAppend(hl, ol);
    UnbrokenAppend(hl + ol, pl);
    UnbrokenAppend(hl + ol + pl, ["END IONS"]);
  }

  // Reading a written block

  lemma FoldSnoc(xs: seq<MgfLine>, x: MgfLine, acc: Pending)
    ensures Fold(xs + [x], acc) == Step(Fold(xs, acc), x)
  {
    assert (xs + [x])[..|xs|] == xs;
  }

  lemma {:induction false} FoldAppend(xs: seq<MgfLine>, ys: seq<MgfLine>, acc: Pending)
    ensures Fold(xs + ys, acc) == Fold(ys, Fold(xs, acc))
    decreases |ys|
  {
    if |ys| == 0 {
      assert xs + ys == xs;
    } else {
      var ys' := ys[..|ys| - 1];
      var y := ys[|ys| - 1];
      var zs := xs + ys;
      assert zs[..|zs| - 1] == xs + ys' && zs[|zs| - 1] == y;
      FoldAppend(xs, ys', acc);
    }
  }

  /** Peak lines append their two words to the lists and change nothing else. */
  lemma {:induction false} FoldPeakItems(ms: seq<string>, ns: seq<string>, acc: Pending)
    requires |ms| == |ns|
    ensures Fold(PeakItems(ms, ns), acc) == acc.(mzList := acc.mzList + ms, intensityList := acc.intensityList + ns)
    decreases |ms|
  {
    var xs := PeakItems(ms, ns);
    if |ms| == 0 {
      assert acc.mzList + ms == acc.mzList && acc.intensityList + ns == acc.intensityList;
    } else {
      var n := |ms| - 1;
      assert xs[..n] == PeakItems(ms[..n], ns[..n]);
      FoldPeakItems(ms[..n], ns[..n], acc);
      assert acc.mzList + ms[..n] + [ms[n]] == acc.mzList + ms;
      assert acc.intensityList + ns[..n] + [ns[n]] == acc.intensityList + ns;
    }
  }

  lemma FoldHead(title: string, precursorMz: string)
    ensures Fold(HeadItems(title, precursorMz), Start) == Pending(true, title, precursorMz, None, None, [], [])
  {
    var xs := HeadItems(title, precursorMz);
    var one := [BeginIons];
    var two := one + [Title(title)];
    assert one[..0] == [];
    assert Fold(one, Start) == Start.(inSpectrum := true);
    assert two[..1] == one;
    assert Fold(two, Start) == Start.(inSpectrum := true, title := title);
    assert xs[..2] == two;
  }

  lemma FoldOptional(precursorCharge: Option<I8>, retentionTime: Option<real>, fs: FloatSyntax,
                     showCharge: I8 -> string, acc: Pending)
    ensures Fold(OptionalItems(precursorCharge, retentionTime, fs, showCharge), acc)
            == acc.(retentionTime := if retentionTime.Some? then MapShow(retentionTime, fs) else acc.retentionTime,
                    precursorCharge := if precursorCharge.Some? then MapCharge(precursorCharge, showCharge) else acc.precursorCharge)
  {
    var xs := OptionalItems(precursorCharge, retentionTime, fs, showCharge);
    if retentionTime.Some? {
      var first := [RtInSeconds(fs.show(retentionTime.value))];
      assert first[..0] == [];
      assert Fold(first[..0], acc) == acc;
      assert Fold(first, acc) == Step(acc, first[0]);
      if precursorCharge.Some? {
        assert xs[..1] == first;
      } else {
        assert xs == first;
      }
    } else if precursorCharge.Some? {
      assert xs[..0] == [];
    } else {
      assert xs == [];
    }
  }

  /** A written block's header lines fold to its header texts, with no peaks yet. */
  lemma FoldHeader(s: Spectrum, fs: FloatSyntax, showCharge: I8 -> string)
    ensures Fold(HeaderItems(s, fs, showCharge), Start) == PendingOf(s, fs, showCharge).(mzList := [], intensityList := [])
  {
    var head := HeadItems(s.title, fs.show(s.precursorMz));
    var opt := OptionalItems(s.precursorCharge, s.retentionTime, fs, showCharge);
    FoldHead(s.title, fs.show(s.precursorMz));
    FoldAppend(head, opt, Start);
    FoldOptional(s.precursorCharge, s.retentionTime, fs, showCharge, Fold(head, Start));
  }

  /** Header lines, then peak lines: the header's values with the peak texts as the lists. */
  lemma FoldThenPeaks(header: seq<MgfLine>, ms: seq<string>, ns: seq<string>, p: Pending)
    requires |ms| == |ns| && p.mzList == ms && p.intensityList == ns
    requires Fold(header, Start) == p.(mzList := [], intensityList := [])
    ensures Fold(header + PeakItems(ms, ns), Start) == p
  {
    var q := Fold(header, Start);
    var peaks := PeakItems(ms, ns);
    assert Fold(header + peaks, Start) == Fold(peaks, q) by {
      FoldAppend(header, peaks, Start);
    }
    assert Fold(peaks, q) == q.(mzList := q.mzList + ms, intensityList := q.intensityList + ns) by {
      FoldPeakItems(ms, ns, q);
    }
    assert q.mzList + ms == ms && q.intensityList + ns == ns;
  }

  /** A written block's lines before `END IONS` fold to the texts it was written from. */
  lemma FoldBody(s: Spectrum, fs: FloatSyntax, showCharge: I8 -> string)
    ensures Fold(BodyItems(s, fs, showCharge), Start) == PendingOf(s, fs, showCharge)
  {
    var z := ZipLen(s.mzList, s.intensityList);
    FoldHeader(s, fs, showCharge);
    FoldThenPeaks(HeaderItems(s, fs, showCharge), Shows(s.mzList[..z], fs), Shows(s.intensityList[..z], fs),
                  PendingOf(s, fs, showCharge));
  }

  lemma SplitLast<T>(ls: seq<T>, a: nat, body: seq<T>, last: T)
    requires a + |body| < |ls| && ls[a..a + |body| + 1] == body + [last]
    ensures ls[a..a + |body|] == body && ls[a + |body|] == last
  {
    var block := body + [last];
    assert block[..|body|] == body && block[|body|] == last;
    assert ls[a..a + |body|] == block[..|body|];
  }

  /** Lines that pass, then `END IONS`: one call of `next` returns their fold and moves past them. */
  lemma ScanThrough(ls: seq<MgfLine>, a: nat, body: seq<MgfLine>)
    requires a + |body| < |ls| && ls[a..a + |body|] == body && ls[a + |body|] == EndIons
    requires forall m :: 0 <= m < |body| ==> Passes(body[m])
    ensures Scan(ls, a, Start) == (Some(Ok(Fold(body, Start))), a + |body| + 1)
  {
    var j := a + |body|;
    forall m | a <= m < j ensures Passes(ls[m]) {
      assert ls[m] == body[m - a];
    }
    ScanFold(ls, a, j, Start);
  }

  /** No line before `END IONS` in a written block ends the scan. */
  lemma BodyPasses(s: Spectrum, fs: FloatSyntax, showCharge: I8 -> string)
    ensures var body := BodyItems(s, fs, showCharge);
            forall m :: 0 <= m < |body| ==> Passes(body[m])
  {
    var head := HeaderItems(s, fs, showCharge);
    var peaks := WrittenPeaks(s, fs);
    forall m | 0 <= m < |head + peaks| ensures Passes((head + peaks)[m]) {
      if m >= |head| {
        assert (head + peaks)[m] == peaks[m - |head|];
      }
    }
  }

  /** One call of `next` at a written block returns the texts it was written from. */
  lemma ScanBlock(ls: seq<MgfLine>, a: nat, s: Spectrum, fs: FloatSyntax, showCharge: I8 -> string)
    requires a + |BlockItems(s, fs, showCharge)| <= |ls|
    requires ls[a..a + |BlockItems(s, fs, showCharge)|] == BlockItems(s, fs, showCharge)
    ensures Scan(ls, a, Start) == (Some(Ok(PendingOf(s, fs, showCharge))), a + |BlockItems(s, fs, showCharge)|)
  {
    BodyPasses(s, fs, showCharge);
    SplitLast(ls, a, BodyItems(s, fs, showCharge), EndIons);
    ScanThrough(ls, a, BodyItems(s, fs, showCharge));
    FoldBody(s, fs, showCharge);
  }

  // Reading a written file

  function FileLines(ss: seq<Spectrum>, fs: FloatSyntax, showCharge: I8 -> string): seq<string>
    decreases |ss|
  {
    if |ss| == 0 then [] else BlockLines(ss[0], fs, showCharge) + FileLines(ss[1..], fs, showCharge)
  }

  function FileItems(ss: seq<Spectrum>, fs: FloatSyntax, showCharge: I8 -> string): seq<MgfLine>
    decreases |ss|
  {
    if |ss| == 0 then [] else BlockItems(ss[0], fs, showCharge) + FileItems(ss[1..], fs, showCharge)
  }

  /** The texts of each block, in order. */
  function Pendings(ss: seq<Spectrum>, fs: FloatSyntax, showCharge: I8 -> string): (r: seq<Result<Pending, ReadError>>)
    ensures |r| == |ss| && forall k :: 0 <= k < |ss| ==> r[k] == Ok(PendingOf(ss[k], fs, showCharge))
  {
    seq(|ss|, k requires 0 <= k < |ss| => Ok(PendingOf(ss[k], fs, showCharge)))
  }

  /** What a writer writes for the spectra: the lines of their blocks. */
  lemma {:induction false} AllTextLines(ss: seq<Spectrum>, fs: FloatSyntax, showCharge: I8 -> string)
    ensures AllText(ss, fs, showCharge) == Unlines(FileLines(ss, fs, showCharge))
    decreases |ss|
  {
    if |ss| > 0 {
      AllTextLines(ss[1..], fs, showCharge);
      UnlinesAppend(BlockLines(ss[0], fs, showCharge), FileLines(ss[1..], fs, showCharge));
    }
  }

  /** The file's lines as `next` classifies them, and none holds a line break. */
  lemma {:induction false} ClassifiedFile(ss: seq<Spectrum>, fs: FloatSyntax, showCharge: I8 -> string,
                                          numeric: char -> bool)
    requires Readable(fs, numeric)
    requires forall k :: 0 <= k < |ss| ==> Writable(ss[k], fs)
    requires forall k :: 0 <= k < |ss| ==> ss[k].precursorCharge.Some? ==> Token(showCharge(ss[k].precursorCharge.value))
    ensures Classified(FileLines(ss, fs, showCharge), numeric) == FileItems(ss, fs, showCharge)
    ensures Unbroken(FileLines(ss, fs, showCharge))
    decreases |ss|
  {
    if |ss| > 0 {
      var b := BlockLines(ss[0], fs, showCharge);
      var rest := FileLines(ss[1..], fs, showCharge);
      assert forall k :: 0 <= k < |ss[1..]| ==> ss[1..][k] == ss[k + 1];
      ClassifiedFile(ss[1..], fs, showCharge, numeric);
      ClassifiedBlock(ss[0], fs, showCharge, numeric);
      ClassifiedAppend(b, rest, numeric);
      UnbrokenAppend(b, rest);
    }
  }

  /** Calling `next` from a written file's `a`-th line until the end gives each block's texts. */
  lemma {:induction false} ReadBlocks(ls: seq<MgfLine>, a: nat, ss: seq<Spectrum>, fs: FloatSyntax,
                                      showCharge: I8 -> string)
    requires a <= |ls| && ls[a..] == FileItems(ss, fs, showCharge)
    ensures ReadAllFrom(ls, a) == Pendings(ss, fs, showCharge)
    decreases |ss|
  {
    if |ss| == 0 {
      assert a == |ls|;
    } else {
      var b := BlockItems(ss[0], fs, showCharge);
      var j := a + |b|;
      assert ls[a..j] == b;
      ScanBlock(ls, a, ss[0], fs, showCharge);
      assert ls[j..] == FileItems(ss[1..], fs, showCharge);
      var rest := Pendings(ss[1..], fs, showCharge);
      if j < |ls| {
        ReadBlocks(ls, j, ss[1..], fs, showCharge);
      }
      assert Pendings(ss, fs, showCharge) == [Ok(PendingOf(ss[0], fs, showCharge))] + rest;
    }
  }

  /** A written file is read block by block as the texts it was written from, whatever parses them. */
  lemma ReadWritten(ss: seq<Spectrum>, fs: FloatSyntax, showCharge: I8 -> string, numeric: char -> bool,
                    parseCharge: string -> Option<I8>)
    requires Readable(fs, numeric)
    requires forall k :: 0 <= k < |ss| ==> Writable(ss[k], fs)
    requires forall k :: 0 <= k < |ss| ==> ss[k].precursorCharge.Some? ==> Token(showCharge(ss[k].precursorCharge.value))
    ensures var r := ReadAllWith(Lines(AllText(ss, fs, showCharge)), numeric, fs, parseCharge);
            |r| == |ss| && forall k :: 0 <= k < |ss| ==> r[k] == Build(PendingOf(ss[k], fs, showCharge), fs, parseCharge)
  {
    var lines := FileLines(ss, fs, showCharge);
    AllTextLines(ss, fs, showCharge);
    ClassifiedFile(ss, fs, showCharge, numeric);
    LinesUnlines(lines);
    var ls := Classified(lines, numeric);
    assert ls[0..] == ls;
    ReadBlocks(ls, 0, ss, fs, showCharge);
  }

  /** Parsing the written texts gives the spectrum back, cut to its written pairs, when the charge reads back. */
  lemma BuildWritten(s: Spectrum, fs: FloatSyntax, showCharge: I8 -> string, parseCharge: string -> Option<I8>)
    requires WellBehaved(fs)
    requires s.precursorCharge.Some? ==> parseCharge(showCharge(s.precursorCharge.value)) == Some(s.precursorCharge.value)
    ensures Build(PendingOf(s, fs, showCharge), fs, parseCharge) == Ok(Zipped(s))
  {
    var p := PendingOf(s, fs, showCharge);
    var z := ZipLen(s.mzList, s.intensityList);
    assert fs.parse(p.precursorMz) == Some(s.precursorMz);
    if s.precursorCharge.Some? {
      assert p.precursorCharge == Some(showCharge(s.precursorCharge.value));
    }
    if s.retentionTime.Some? {
      assert p.retentionTime == Some(fs.show(s.retentionTime.value));
      ShowIsToken(fs, s.retentionTime.value);
    }
    forall k | 0 <= k < |p.mzList| ensures fs.parse(p.mzList[k]) == Some(s.mzList[k]) {
      assert p.mzList[k] == fs.show(s.mzList[k]);
      ShowIsToken(fs, s.mzList[k]);
    }
    forall k | 0 <= k < |p.intensityList| ensures fs.parse(p.intensityList[k]) == Some(s.intensityList[k]) {
      assert p.intensityList[k] == fs.show(s.intensityList[k]);
      ShowIsToken(fs, s.intensityList[k]);
    }
    assert Parses(p, fs, parseCharge);
    var v := Build(p, fs, parseCharge).value;
    assert v.mzList == s.mzList[..z];
    assert v.intensityList == s.intensityList[..z];
  }

  /** As written, a charged spectrum's texts fail at the charge. */
  lemma BuildWrittenCharged(s: Spectrum, fs: FloatSyntax)
    requires WellBehaved(fs) && s.precursorCharge.Some?
    ensures Build(PendingOf(s, fs, ShowCharge), fs, ParseCharge) == Err(ChargeNotInteger)
  {
    ChargeNotReadBack(s.precursorCharge.value);
  }

  /** What the writer writes and the reader reads back: each spectrum without a charge, and `ChargeNotInteger` for each with one. */
  lemma WriteThenRead(ss: seq<Spectrum>, fs: FloatSyntax, numeric: char -> bool)
    requires Readable(fs, numeric)
    requires forall k :: 0 <= k < |ss| ==> Writable(ss[k], fs)
    ensures var r := ReadAll(Lines(AllText(ss, fs, ShowCharge)), numeric, fs);
            |r| == |ss|
            && forall k :: 0 <= k < |ss| ==>
                 r[k] == if ss[k].precursorCharge.Some? then Err(ChargeNotInteger) else Ok(Zipped(ss[k]))
  {
    forall k | 0 <= k < |ss| ensures ss[k].precursorCharge.Some? ==> Token(ShowCharge(ss[k].precursorCharge.value)) {
      if ss[k].precursorCharge.Some? {
        ChargeTokens(ss[k].precursorCharge.value);
      }
    }
    ReadWritten(ss, fs, ShowCharge, numeric, ParseCharge);
    forall k | 0 <= k < |ss|
      ensures Build(PendingOf(ss[k], fs, ShowCharge), fs, ParseCharge)
              == if ss[k].precursorCharge.Some? then Err(ChargeNotInteger) else Ok(Zipped(ss[k]))
    {
      if ss[k].precursorCharge.Some? {
        BuildWrittenCharged(ss[k], fs);
      } else {
        BuildWritten(ss[k], fs, ShowCharge, ParseCharge);
      }
    }
  }

  /** With the charge written and read as corrected, every written spectrum is read back. */
  lemma WriteThenReadFixed(ss: seq<Spectrum>, fs: FloatSyntax, numeric: char -> bool)
    requires Readable(fs, numeric)
    requires forall k :: 0 <= k < |ss| ==> Writable(ss[k], fs)
    ensures var r := ReadAllWith(Lines(AllText(ss, fs, ShowChargeFixed)), numeric, fs, ParseChargeFixed);
            |r| == |ss| && forall k :: 0 <= k < |ss| ==> r[k] == Ok(Zipped(ss[k]))
  {
    forall k | 0 <= k < |ss| ensures ss[k].precursorCharge.Some? ==> Token(ShowChargeFixed(ss[k].precursorCharge.value)) {
      if ss[k].precursorCharge.Some? {
        ChargeTokens(ss[k].precursorCharge.value);
      }
    }
    ReadWritten(ss, fs, ShowChargeFixed, numeric, ParseChargeFixed);
    forall k | 0 <= k < |ss| ensures Build(PendingOf(ss[k], fs, ShowChargeFixed), fs, ParseChargeFixed) == Ok(Zipped(ss[k])) {
      if ss[k].precursorCharge.Some? {
        ChargeFixedRoundTrip(ss[k].precursorCharge.value);
      }
      BuildWritten(ss[k], fs, ShowChargeFixed, ParseChargeFixed);
    }
  }

  // Writing what was read

  /** Only the written pairs are written: cutting the lists to them changes no text. */
  lemma ZippedText(s: Spectrum, fs: FloatSyntax, showCharge: I8 -> string)
    ensures SpectrumText(Zipped(s), fs, showCharge) == SpectrumText(s, fs, showCharge)
  {
    var z := ZipLen(s.mzList, s.intensityList);
    assert PeakLines(Zipped(s).mzList, Zipped(s).intensityList, fs) == PeakLines(s.mzList, s.intensityList, fs);
    assert BlockLines(Zipped(s), fs, showCharge) == BlockLines(s, fs, showCharge);
  }

  lemma {:induction false} ZippedAllText(ss: seq<Spectrum>, vs: seq<Spectrum>, fs: FloatSyntax, showCharge: I8 -> string)
    requires |vs| == |ss| && forall k :: 0 <= k < |ss| ==> vs[k] == Zipped(ss[k])
    ensures AllText(vs, fs, showCharge) == AllText(ss, fs, showCharge)
    decreases |ss|
  {
    if |ss| > 0 {
      ZippedText(ss[0], fs, showCharge);
      ZippedAllText(ss[1..], vs[1..], fs, showCharge);
    }
  }

  /**
    Read-then-write: reading a file as the writer writes it, with no charges,
    gives only spectra, and writing them gives the same text.
   */
  lemma ReadThenWrite(ss: seq<Spectrum>, fs: FloatSyntax, numeric: char -> bool)
    requires Readable(fs, numeric)
    requires forall k :: 0 <= k < |ss| ==> Writable(ss[k], fs) && ss[k].precursorCharge.None?
    ensures var text := AllText(ss, fs, ShowCharge);
            var r := ReadAll(Lines(text), numeric, fs);
            (forall k :: 0 <= k < |r| ==> r[k].Ok?)
            && AllText(seq(|r|, k requires 0 <= k < |r| => r[k].value), fs, ShowCharge) == text
  {
    WriteThenRead(ss, fs, numeric);
    var r := ReadAll(Lines(AllText(ss, fs, ShowCharge)), numeric, fs);
    ZippedAllText(ss, seq(|r|, k requires 0 <= k < |r| => r[k].value), fs, ShowCharge);
  }

  /** The same with the corrected charge, for any spectra. */
  lemma ReadThenWriteFixed(ss: seq<Spectrum>, fs: FloatSyntax, numeric: char -> bool)
    requires Readable(fs, numeric)
    requires forall k :: 0 <= k < |ss| ==> Writable(ss[k], fs)
    ensures var text := AllText(ss, fs, ShowChargeFixed);
            var r := ReadAllWith(Lines(text), numeric, fs, ParseChargeFixed);
            (forall k :: 0 <= k < |r| ==> r[k].Ok?)
            && AllText(seq(|r|, k requires 0 <= k < |r| => r[k].value), fs, ShowChargeFixed) == text
  {
    WriteThenReadFixed(ss, fs, numeric);
    var r := ReadAllWith(Lines(AllText(ss, fs, ShowChargeFixed)), numeric, fs, ParseChargeFixed);
    ZippedAllText(ss, seq(|r|, k requires 0 <= k < |r| => r[k].value), fs, ShowChargeFixed);
  }
}
