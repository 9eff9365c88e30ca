/**
  The MSP file round trip: the text `MspWriter` writes for a sequence of PSMs
  reads back, record by record, as the same PSMs, provided each PSM has a shape
  the line format can carry.
 */
module MspFileLaws {
  import opened Base
  import opened Text
  import opened Decimal
  import opened Floats
  import opened MspPsmCodec
  import opened MspReading
  import opened MspWriting

  /**
    A name or comment the reader gives back: not empty (the trimmed line would
    end in ':' and not hold ": "), no whitespace at its ends (the reader trims
    the line), no line break, and no ": " (the reader keeps the text up to the
    next ": " only).
   */
  predicate HeaderValue(v: string) {
    |v| > 0 && Trimmed(v) && NoNewline(v) && !ContainsStr(v, ": ")
  }

  /** A PSM whose written record reads back as itself. */
  predicate WellFormedPsm(p: MspPsm, fs: FloatSyntax) {
    HeaderValue(p.header.name) && HeaderValue(p.header.comment)
    && p.header.numPeaks <= USIZE_MAX
    && |p.data.mzList| == p.header.numPeaks
    && |p.data.intensityList| == p.header.numPeaks
    && |p.annotationList| == p.header.numPeaks
    && (forall k :: 0 <= k < |p.data.mzList| ==> ShowsDigitFirst(fs, p.data.mzList[k]))
    && (forall k :: 0 <= k < |p.annotationList| ==> '\t' !in p.annotationList[k] && '\n' !in p.annotationList[k])
  }

  /** The lines of a written file: the records' lines with one empty line between records. */
  function FileLines(psms: seq<MspPsm>, fs: FloatSyntax): seq<string>
    decreases |psms|
  {
    if |psms| == 0 then []
    else if |psms| == 1 then PsmLines(psms[0], fs)
    else PsmLines(psms[0], fs) + [""] + FileLines(psms[1..], fs)
  }

  // ---------------------------------------------------------------------------
  // The written text as lines

  /** A writer that has already written a PSM writes an empty line first. */
  lemma RecordsSeparated(psms: seq<MspPsm>, fs: FloatSyntax)
    requires |psms| > 0
    ensures Records(psms, true, fs) == "\n" + Records(psms, false, fs)
  {
    AppendAssoc("\n", PsmText(psms[0], fs), Records(psms[1..], true, fs));
    assert "" + PsmText(psms[0], fs) == PsmText(psms[0], fs);
  }

  lemma {:induction false} RecordsAsLines(psms: seq<MspPsm>, fs: FloatSyntax)
    ensures Records(psms, false, fs) == Unlines(FileLines(psms, fs))
    decreases |psms|
  {
    if |psms| == 1 {
      assert Records(psms[1..], true, fs) == "";
      assert "" + PsmText(psms[0], fs) + "" == PsmText(psms[0], fs);
    } else if |psms| > 1 {
      var rest := psms[1..];
      var head := PsmLines(psms[0], fs);
      RecordsAsLines(rest, fs);
      RecordsSeparated(rest, fs);
      UnlinesAppend(head + [""], FileLines(rest, fs));
      UnlinesAppend(head, [""]);
      assert Unlines([""]) == "\n" by { assert [""][1..] == []; }
      assert "" + PsmText(psms[0], fs) == Unlines(head);
      AppendAssoc(Unlines(head), "\n", Records(rest, false, fs));
    }
  }

  // ---------------------------------------------------------------------------
  // What the reader does with each written line

  /** A line that does not start with whitespace is a line the reader accepts without panicking. */
  lemma StartsSolid(line: string)
    requires |line| > 0 && !IsWhitespace(line[0])
    ensures !IsBlank(line) && !Panics(line)
  {
    TrimEmpty(line);
  }

  /** `key: value` as the reader splits it. */
  lemma HeaderParts(key: string, value: string)
    requires |key| > 0 && ':' !in key && !IsWhitespace(key[0]) && !IsAsciiDigit(key[0])
    requires |value| > 0 && Trimmed(value) && !ContainsStr(value, ": ")
    ensures var line := key + ": " + value;
            !IsBlank(line) && !Panics(line) && Trim(line) == line && !IsAsciiDigit(Trim(line)[0])
            && SplitStr(line, ": ") == [key, value]
  {
    var line := key + ": " + value;
    assert line[0] == key[0] && line[|line| - 1] == value[|value| - 1];
    TrimOfTrimmed(line);
    StartsSolid(line);
    SplitStrFirst(key, ": ", value);
    SplitStrNoMatch(value, ": ");
  }

  /** A token has no ':' and so no ": ". */
  lemma TokenValue(s: string)
    requires Token(s)
    ensures |s| > 0 && Trimmed(s) && NoNewline(s) && !ContainsStr(s, ": ") && '\t' !in s
  {
    TokenIsWord(s);
    assert ':' !in s;
    NotContainsStr(s, ": ");
  }

  lemma NameLine(name: string, acc: Pending, fs: FloatSyntax)
    requires HeaderValue(name)
    ensures var line := "Name: " + name;
            !IsBlank(line) && !Panics(line) && LineStep(line, acc, fs) == Ok(acc.(found := true, name := name))
  {
    HeaderParts("Name", name);
    assert "Name" + ": " + name == "Name: " + name;
  }

  lemma MwLine(mw: real, acc: Pending, fs: FloatSyntax)
    requires WellBehaved(fs)
    ensures var line := "MW: " + fs.show(mw);
            !IsBlank(line) && !Panics(line) && LineStep(line, acc, fs) == Ok(acc.(found := true, mw := mw))
  {
    ShowIsToken(fs, mw);
    TokenValue(fs.show(mw));
    HeaderParts("MW", fs.show(mw));
    assert "MW" + ": " + fs.show(mw) == "MW: " + fs.show(mw);
  }

  lemma CommentLine(comment: string, acc: Pending, fs: FloatSyntax)
    requires HeaderValue(comment)
    ensures var line := "Comment: " + comment;
            !IsBlank(line) && !Panics(line) && LineStep(line, acc, fs) == Ok(acc.(found := true, comment := comment))
  {
    HeaderParts("Comment", comment);
    assert "Comment" + ": " + comment == "Comment: " + comment;
  }

  lemma NumPeaksLine(n: nat, acc: Pending, fs: FloatSyntax)
    requires n <= USIZE_MAX
    ensures var line := "Num peaks: " + NatToString(n);
            !IsBlank(line) && !Panics(line) && LineStep(line, acc, fs) == Ok(acc.(found := true, numPeaks := n))
  {
    var v := NatToString(n);
    NatToStringShape(n);
    NotInDigits(v, ':');
    NotContainsStr(v, ": ");
    HeaderParts("Num peaks", v);
    assert "Num peaks" + ": " + v == "Num peaks: " + v;
    ParseUnsignedOfNatToString(n, USIZE_MAX);
  }

  /** A written peak line adds its three values to the lists. */
  lemma PeakLineStep(mz: real, intensity: real, a: string, acc: Pending, fs: FloatSyntax)
    requires WellBehaved(fs) && ShowsDigitFirst(fs, mz) && '\t' !in a
    ensures var line := PeakLine(mz, intensity, a, fs);
            !IsBlank(line) && !Panics(line)
            && LineStep(line, acc, fs)
               == Ok(acc.(mzList := acc.mzList + [mz], intensityList := acc.intensityList + [intensity],
                          annotationList := acc.annotationList + [a]))
  {
    var x := fs.show(mz);
    var y := fs.show(intensity);
    var q := "\"" + a + "\"";
    ShowIsToken(fs, mz);
    ShowIsToken(fs, intensity);
    TokenValue(x);
    TokenValue(y);
    var line := PeakLine(mz, intensity, a, fs);
    assert line == x + ['\t'] + (y + ['\t'] + q);
    assert line[0] == x[0] && line[|line| - 1] == '"';
    TrimOfTrimmed(line);
    StartsSolid(line);
    SplitFirst(x, '\t', y + ['\t'] + q);
    SplitFirst(y, '\t', q);
    SplitNoSeparator(q, '\t');
    assert Split(line, '\t') == [x, y, q];
    assert q[1..|q| - 1] == a;
  }

  // ---------------------------------------------------------------------------
  // Reading one record

  /** Lines that are neither blank nor make the reader panic. */
  predicate Solid(ls: seq<string>) {
    forall k :: 0 <= k < |ls| ==> !IsBlank(ls[k]) && !Panics(ls[k])
  }

  /** The lines of one record read one after the other, from the values `acc`. */
  function Steps(ls: seq<string>, acc: Pending, fs: FloatSyntax): Result<Pending, ReadError>
    requires Solid(ls)
    decreases |ls|
  {
    if |ls| == 0 then Ok(acc)
    else
      match LineStep(ls[0], acc, fs)
      case Err(e) => Err(e)
      case Ok(next) => Steps(ls[1..], next, fs)
  }

  /** One accepted line. */
  lemma ScanStep(lines: seq<string>, i: nat, acc: Pending, next: Pending, fs: FloatSyntax)
    requires i < |lines| && NoPanicFrom(lines, i) && !IsBlank(lines[i])
    requires LineStep(lines[i], acc, fs) == Ok(next)
    ensures Scan(lines, i, acc, fs) == Scan(lines, i + 1, next, fs)
  {
  }

  /** `next` goes through the lines of a record as `Steps` does. */
  lemma {:induction false} ScanSteps(lines: seq<string>, i: nat, ls: seq<string>, acc: Pending, done: Pending, fs: FloatSyntax)
    requires i + |ls| <= |lines| && NoPanicFrom(lines, i) && lines[i..i + |ls|] == ls
    requires Solid(ls) && Steps(ls, acc, fs) == Ok(done)
    ensures Scan(lines, i, acc, fs) == Scan(lines, i + |ls|, done, fs)
    decreases |ls|
  {
    if |ls| > 0 {
      WindowTail(lines, i, ls);
      StepsTail(ls, acc, done, fs);
      var next := LineStep(ls[0], acc, fs).value;
      ScanStep(lines, i, acc, next, fs);
      ScanSteps(lines, i + 1, ls[1..], next, done, fs);
    }
  }

  lemma WindowTail(lines: seq<string>, i: nat, ls: seq<string>)
    requires |ls| > 0 && i + |ls| <= |lines| && NoPanicFrom(lines, i) && lines[i..i + |ls|] == ls
    ensures lines[i] == ls[0] && NoPanicFrom(lines, i + 1) && lines[i + 1..i + |ls|] == ls[1..]
  {
    assert lines[i] == lines[i..i + |ls|][0];
  }

  lemma StepsTail(ls: seq<string>, acc: Pending, done: Pending, fs: FloatSyntax)
    requires |ls| > 0 && Solid(ls) && Steps(ls, acc, fs) == Ok(done)
    ensures !IsBlank(ls[0]) && LineStep(ls[0], acc, fs).Ok? && Solid(ls[1..])
    ensures Steps(ls[1..], LineStep(ls[0], acc, fs).value, fs) == Ok(done)
  {
  }

  lemma SolidAppend(a: seq<string>, b: seq<string>)
    requires Solid(a) && Solid(b)
    ensures Solid(a + b)
  {
    assert forall k :: 0 <= k < |a + b| ==> (a + b)[k] == if k < |a| then a[k] else b[k - |a|];
  }

  lemma SolidCons(ls: seq<string>)
    requires |ls| > 0 && !IsBlank(ls[0]) && !Panics(ls[0]) && Solid(ls[1..])
    ensures Solid(ls)
  {
    forall k | 0 < k < |ls| ensures !IsBlank(ls[k]) && !Panics(ls[k]) {
      assert ls[k] == ls[1..][k - 1];
    }
  }

  /** The first line of a run, then the rest. */
  lemma StepsCons(ls: seq<string>, acc: Pending, next: Pending, fs: FloatSyntax)
    requires |ls| > 0 && Solid(ls) && LineStep(ls[0], acc, fs) == Ok(next)
    ensures Steps(ls, acc, fs) == Steps(ls[1..], next, fs)
  {
  }

  /** The four header lines are solid and free of line breaks. */
  lemma HeaderSolid(h: MspPsmHeader, fs: FloatSyntax)
    requires WellBehaved(fs) && HeaderValue(h.name) && HeaderValue(h.comment)
    ensures Solid(HeaderLines(h, fs))
    ensures forall k :: 0 <= k < 4 ==> NoNewline(HeaderLines(h, fs)[k])
  {
    var hl := HeaderLines(h, fs);
    ShowIsToken(fs, h.mw);
    TokenValue(fs.show(h.mw));
    NatToStringShape(h.numPeaks);
    StartsSolid(hl[0]);
    StartsSolid(hl[1]);
    StartsSolid(hl[2]);
    StartsSolid(hl[3]);
  }

  /** The four header lines, followed by any lines, set the four header fields. */
  lemma HeaderSteps(h: MspPsmHeader, rest: seq<string>, fs: FloatSyntax)
    requires WellBehaved(fs) && HeaderValue(h.name) && HeaderValue(h.comment) && h.numPeaks <= USIZE_MAX
    requires Solid(rest) && Solid(HeaderLines(h, fs) + rest)
    ensures Steps(HeaderLines(h, fs) + rest, Start, fs)
            == Steps(rest, Start.(found := true, name := h.name, mw := h.mw, comment := h.comment, numPeaks := h.numPeaks), fs)
  {
    var hl := HeaderLines(h, fs);
    var ls := hl + rest;
    var a1 := Start.(found := true, name := h.name);
    var a2 := a1.(mw := h.mw);
    var a3 := a2.(comment := h.comment);
    var a4 := a3.(numPeaks := h.numPeaks);
    NameLine(h.name, Start, fs);
    MwLine(h.mw, a1, fs);
    CommentLine(h.comment, a2, fs);
    NumPeaksLine(h.numPeaks, a3, fs);
    assert ls[0] == hl[0] && ls[1..][0] == hl[1] && ls[2..][0] == hl[2] && ls[3..][0] == hl[3];
    StepsCons(ls, Start, a1, fs);
    StepsCons(ls[1..], a1, a2, fs);
    StepsCons(ls[2..], a2, a3, fs);
    assert ls[1..][1..] == ls[2..] && ls[2..][1..] == ls[3..];
    StepsCons(ls[3..], a3, a4, fs);
    assert ls[3..][1..] == rest;
  }

  /** The peak lines from position `k` on, read after the first `k` peaks. */
  lemma {:induction false} PeakSteps(p: MspPsm, k: nat, acc: Pending, fs: FloatSyntax)
    requires WellBehaved(fs) && WellFormedPsm(p, fs) && k <= p.header.numPeaks
    requires acc.mzList == p.data.mzList[..k] && acc.intensityList == p.data.intensityList[..k]
             && acc.annotationList == p.annotationList[..k]
    ensures Solid(PeakLines(p, fs)[k..])
    ensures Steps(PeakLines(p, fs)[k..], acc, fs)
            == Ok(acc.(mzList := p.data.mzList, intensityList := p.data.intensityList, annotationList := p.annotationList))
    decreases p.header.numPeaks - k
  {
    var ls := PeakLines(p, fs)[k..];
    if k == p.header.numPeaks {
      assert p.data.mzList[..k] == p.data.mzList && p.data.intensityList[..k] == p.data.intensityList;
      assert p.annotationList[..k] == p.annotationList;
    } else {
      var mz := p.data.mzList[k];
      var intensity := p.data.intensityList[k];
      var a := p.annotationList[k];
      var next := acc.(mzList := acc.mzList + [mz], intensityList := acc.intensityList + [intensity],
                       annotationList := acc.annotationList + [a]);
      assert p.data.mzList[..k + 1] == p.data.mzList[..k] + [mz];
      assert p.data.intensityList[..k + 1] == p.data.intensityList[..k] + [intensity];
      assert p.annotationList[..k + 1] == p.annotationList[..k] + [a];
      PeakSteps(p, k + 1, next, fs);
      PeakLinesCons(p, k, acc, next, fs);
    }
  }

  /** The peak line at position `k`, then the ones after it. */
  lemma PeakLinesCons(p: MspPsm, k: nat, acc: Pending, next: Pending, fs: FloatSyntax)
    requires WellBehaved(fs) && WellFormedPsm(p, fs) && k < p.header.numPeaks
    requires next == acc.(mzList := acc.mzList + [p.data.mzList[k]], intensityList := acc.intensityList + [p.data.intensityList[k]],
                          annotationList := acc.annotationList + [p.annotationList[k]])
    requires Solid(PeakLines(p, fs)[k + 1..])
    ensures Solid(PeakLines(p, fs)[k..])
    ensures Steps(PeakLines(p, fs)[k..], acc, fs) == Steps(PeakLines(p, fs)[k + 1..], next, fs)
  {
    var ls := PeakLines(p, fs)[k..];
    PeakLineStep(p.data.mzList[k], p.data.intensityList[k], p.annotationList[k], acc, fs);
    assert ls[0] == PeakLine(p.data.mzList[k], p.data.intensityList[k], p.annotationList[k], fs);
    assert ls[1..] == PeakLines(p, fs)[k + 1..];
    SolidCons(ls);
    StepsCons(ls, acc, next, fs);
  }

  /** All values a record's lines gather: those of the PSM. */
  function Loaded(p: MspPsm): Pending {
    Pending(true, p.header.name, p.header.mw, p.header.comment, p.header.numPeaks,
            p.data.mzList, p.data.intensityList, p.annotationList)
  }

  /** The lines of a written PSM, read one after the other, gather the PSM. */
  lemma RecordSteps(p: MspPsm, fs: FloatSyntax)
    requires WellBehaved(fs) && WellFormedPsm(p, fs)
    ensures Solid(PsmLines(p, fs)) && Steps(PsmLines(p, fs), Start, fs) == Ok(Loaded(p))
    ensures Finish(Loaded(p)) == Ok(Some(p))
  {
    var h := p.header;
    var mid := Start.(found := true, name := h.name, mw := h.mw, comment := h.comment, numPeaks := h.numPeaks);
    PeakSteps(p, 0, mid, fs);
    assert PeakLines(p, fs)[0..] == PeakLines(p, fs);
    HeaderSolid(h, fs);
    SolidAppend(HeaderLines(h, fs), PeakLines(p, fs));
    HeaderSteps(h, PeakLines(p, fs), fs);
  }

  /** A record's lines, followed by the end of the input or by an empty line, read as its PSM. */
  lemma ScanRecord(lines: seq<string>, i: nat, ls: seq<string>, done: Pending, p: MspPsm, fs: FloatSyntax)
    requires i + |ls| <= |lines| && NoPanicFrom(lines, i) && lines[i..i + |ls|] == ls
    requires Solid(ls) && Steps(ls, Start, fs) == Ok(done) && Finish(done) == Ok(Some(p))
    requires i + |ls| == |lines| || lines[i + |ls|] == ""
    ensures Scan(lines, i, Start, fs) == (Ok(Some(p)), if i + |ls| == |lines| then i + |ls| else i + |ls| + 1)
  {
    ScanSteps(lines, i, ls, Start, done, fs);
  }

  // ---------------------------------------------------------------------------
  // The whole file

  /** A line that is free of line breaks and does not make the reader panic. */
  predicate SafeLine(line: string) {
    NoNewline(line) && !Panics(line)
  }

  lemma HeaderLinesSafe(h: MspPsmHeader, fs: FloatSyntax)
    requires WellBehaved(fs) && HeaderValue(h.name) && HeaderValue(h.comment) && h.numPeaks <= USIZE_MAX
    ensures forall k :: 0 <= k < 4 ==> SafeLine(HeaderLines(h, fs)[k])
  {
    HeaderSolid(h, fs);
  }

  lemma PeakLineSafe(mz: real, intensity: real, a: string, fs: FloatSyntax)
    requires WellBehaved(fs) && ShowsDigitFirst(fs, mz) && '\t' !in a && '\n' !in a
    ensures SafeLine(PeakLine(mz, intensity, a, fs))
  {
    ShowIsToken(fs, mz);
    ShowIsToken(fs, intensity);
    TokenValue(fs.show(mz));
    TokenValue(fs.show(intensity));
    PeakLineStep(mz, intensity, a, Start, fs);
  }

  /** Every written line is free of line breaks and does not make the reader panic. */
  lemma PsmLinesSafe(p: MspPsm, fs: FloatSyntax)
    requires WellBehaved(fs) && WellFormedPsm(p, fs)
    ensures forall k :: 0 <= k < |PsmLines(p, fs)| ==> SafeLine(PsmLines(p, fs)[k])
  {
    var pl := PsmLines(p, fs);
    HeaderLinesSafe(p.header, fs);
    forall k | 0 <= k < |pl| ensures SafeLine(pl[k]) {
      if k >= 4 {
        var m := k - 4;
        assert pl[k] == PeakLines(p, fs)[m];
        PeakLineSafe(p.data.mzList[m], p.data.intensityList[m], p.annotationList[m], fs);
      } else {
        assert pl[k] == HeaderLines(p.header, fs)[k];
      }
    }
  }

  lemma {:induction false} FileLinesSafe(psms: seq<MspPsm>, fs: FloatSyntax)
    requires WellBehaved(fs) && forall k :: 0 <= k < |psms| ==> WellFormedPsm(psms[k], fs)
    ensures forall k :: 0 <= k < |FileLines(psms, fs)| ==> SafeLine(FileLines(psms, fs)[k])
    decreases |psms|
  {
    if |psms| > 0 {
      PsmLinesSafe(psms[0], fs);
      if |psms| > 1 {
        FileLinesSafe(psms[1..], fs);
        SafeJoin(PsmLines(psms[0], fs), FileLines(psms[1..], fs));
      }
    }
  }

  /** Two runs of safe lines with an empty line between them. */
  lemma SafeJoin(a: seq<string>, b: seq<string>)
    requires forall k :: 0 <= k < |a| ==> SafeLine(a[k])
    requires forall k :: 0 <= k < |b| ==> SafeLine(b[k])
    ensures forall k :: 0 <= k < |a + [""] + b| ==> SafeLine((a + [""] + b)[k])
  {
    var l := a + [""] + b;
    forall k | 0 <= k < |l| ensures SafeLine(l[k]) {
      if k > |a| {
        assert l[k] == b[k - |a| - 1];
      } else if k < |a| {
        assert l[k] == a[k];
      } else {
        assert l[k] == "";
      }
    }
  }

  /** A record read, then the rest of the file. */
  lemma ReadAllStep(lines: seq<string>, i: nat, j: nat, p: MspPsm, rest: seq<MspPsm>, fs: FloatSyntax)
    requires i <= j <= |lines| && NoPanicFrom(lines, i)
    requires Scan(lines, i, Start, fs) == (Ok(Some(p)), j)
    requires ReadAllFrom(lines, j, fs) == Ok(rest)
    ensures ReadAllFrom(lines, i, fs) == Ok([p] + rest)
  {
  }

  /** Runs of lines with one empty line between each two; `FileLines` is this layout of the records' lines. */
  function Layout(chunks: seq<seq<string>>): seq<string>
    decreases |chunks|
  {
    if |chunks| == 0 then []
    else if |chunks| == 1 then chunks[0]
    else chunks[0] + [""] + Layout(chunks[1..])
  }

  function PsmChunks(psms: seq<MspPsm>, fs: FloatSyntax): (r: seq<seq<string>>)
    ensures |r| == |psms| && forall k :: 0 <= k < |psms| ==> r[k] == PsmLines(psms[k], fs)
  {
    seq(|psms|, k requires 0 <= k < |psms| => PsmLines(psms[k], fs))
  }

  lemma {:induction false} FileLinesLayout(psms: seq<MspPsm>, fs: FloatSyntax)
    ensures FileLines(psms, fs) == Layout(PsmChunks(psms, fs))
    decreases |psms|
  {
    if |psms| > 1 {
      assert PsmChunks(psms, fs)[1..] == PsmChunks(psms[1..], fs);
      FileLinesLayout(psms[1..], fs);
    }
  }

  /** Where a run of lines sits: `c` from line `s` on, then the end of the input or an empty line, with `e` the line after. */
  predicate RunAt(lines: seq<string>, s: nat, e: nat, c: seq<string>) {
    s + |c| <= |lines| && lines[s..s + |c|] == c
    && ((e == s + |c| == |lines|) || (e == s + |c| + 1 && s + |c| < |lines| && lines[s + |c|] == ""))
  }

  /** The line indices where the runs start, and the end of the last one. */
  function Offsets(chunks: seq<seq<string>>, i: nat): (r: seq<nat>)
    ensures |r| == |chunks| + 1 && r[0] == i
    decreases |chunks|
  {
    if |chunks| == 0 then [i]
    else if |chunks| == 1 then [i, i + |chunks[0]|]
    else [i] + Offsets(chunks[1..], i + |chunks[0]| + 1)
  }

  /** Where the runs that follow the first one start. */
  lemma LayoutRest(lines: seq<string>, i: nat, chunks: seq<seq<string>>)
    requires |chunks| > 1 && i <= |lines| && lines[i..] == Layout(chunks)
    ensures RunAt(lines, i, i + |chunks[0]| + 1, chunks[0])
    ensures i + |chunks[0]| + 1 <= |lines| && lines[i + |chunks[0]| + 1..] == Layout(chunks[1..])
  {
    var e := i + |chunks[0]| + 1;
    assert lines[i..] == chunks[0] + [""] + Layout(chunks[1..]);
    assert lines[i..i + |chunks[0]|] == lines[i..][..|chunks[0]|];
    assert lines[i + |chunks[0]|] == lines[i..][|chunks[0]|];
    assert lines[e..] == lines[i..][|chunks[0]| + 1..];
  }

  /** Laid-out runs sit at their offsets. */
  lemma {:induction false} OffsetsLayout(lines: seq<string>, i: nat, chunks: seq<seq<string>>)
    requires i <= |lines| && lines[i..] == Layout(chunks)
    ensures var at := Offsets(chunks, i);
            at[|chunks|] == |lines|
            && (forall k :: 0 <= k <= |chunks| ==> i <= at[k] <= |lines|)
            && (forall k :: 0 <= k < |chunks| ==> RunAt(lines, at[k], at[k + 1], chunks[k]))
    decreases |chunks|
  {
    var at := Offsets(chunks, i);
    if |chunks| == 1 {
      assert lines[i..i + |chunks[0]|] == lines[i..];
    } else if |chunks| > 1 {
      var j := i + |chunks[0]| + 1;
      LayoutRest(lines, i, chunks);
      OffsetsLayout(lines, j, chunks[1..]);
      var rest := Offsets(chunks[1..], j);
      assert at == [i] + rest;
      forall k | 0 <= k < |chunks| ensures RunAt(lines, at[k], at[k + 1], chunks[k]) {
        if k > 0 {
          assert at[k] == rest[k - 1] && at[k + 1] == rest[k] && chunks[k] == chunks[1..][k - 1];
        }
      }
    }
  }

  /** A run sitting in the input, whose lines gather a PSM, is read as that PSM. */
  lemma RunReads(lines: seq<string>, s: nat, e: nat, c: seq<string>, p: MspPsm, fs: FloatSyntax)
    requires NoPanicFrom(lines, s) && RunAt(lines, s, e, c)
    requires Solid(c) && Steps(c, Start, fs) == Ok(Loaded(p)) && Finish(Loaded(p)) == Ok(Some(p))
    ensures Scan(lines, s, Start, fs) == (Ok(Some(p)), e)
  {
    ScanRecord(lines, s, c, Loaded(p), p, fs);
  }

  /** `next`, called at line `s`, reads `p` and stops before line `e`. */
  predicate ReadsAt(lines: seq<string>, s: nat, p: MspPsm, e: nat, fs: FloatSyntax) {
    s <= |lines| && NoPanicFrom(lines, s) && Scan(lines, s, Start, fs) == (Ok(Some(p)), e)
  }

  /** Reading from the `k`th of a list of positions each of which `next` reads as one PSM up to the following one. */
  lemma {:induction false} ReadAllAt(lines: seq<string>, at: seq<nat>, psms: seq<MspPsm>, k: nat, fs: FloatSyntax)
    requires |at| == |psms| + 1 && k <= |psms| && at[|psms|] == |lines|
    requires at[k] <= |lines| && NoPanicFrom(lines, at[k])
    requires forall m {:trigger ReadsAt(lines, at[m], psms[m], at[m + 1], fs)} ::
               k <= m < |psms| ==> ReadsAt(lines, at[m], psms[m], at[m + 1], fs)
    ensures ReadAllFrom(lines, at[k], fs) == Ok(psms[k..])
    decreases |psms| - k
  {
    if k == |psms| {
      ReadAllAtEnd(lines, fs);
    } else {
      assert ReadsAt(lines, at[k], psms[k], at[k + 1], fs);
      ReadAllAt(lines, at, psms, k + 1, fs);
      ReadAllStep(lines, at[k], at[k + 1], psms[k], psms[k + 1..], fs);
      assert psms[k..] == [psms[k]] + psms[k + 1..];
    }
  }

  lemma ReadAllAtEnd(lines: seq<string>, fs: FloatSyntax)
    ensures ReadAllFrom(lines, |lines|, fs) == Ok([])
  {
    assert Scan(lines, |lines|, Start, fs) == (Finish(Start), |lines|);
  }

  /** Reading from a position where the written lines of `psms` start and run to the end. */
  lemma ReadFileFrom(lines: seq<string>, i: nat, psms: seq<MspPsm>, fs: FloatSyntax)
    requires WellBehaved(fs) && forall k :: 0 <= k < |psms| ==> WellFormedPsm(psms[k], fs)
    requires i <= |lines| && NoPanicFrom(lines, i) && lines[i..] == FileLines(psms, fs)
    ensures ReadAllFrom(lines, i, fs) == Ok(psms)
  {
    var chunks := PsmChunks(psms, fs);
    FileLinesLayout(psms, fs);
    OffsetsLayout(lines, i, chunks);
    var at := Offsets(chunks, i);
    forall m | 0 <= m < |psms| ensures ReadsAt(lines, at[m], psms[m], at[m + 1], fs) {
      RecordSteps(psms[m], fs);
      RunReads(lines, at[m], at[m + 1], chunks[m], psms[m], fs);
    }
    ReadAllAt(lines, at, psms, 0, fs);
    assert psms[0..] == psms;
  }

  /**
    The round trip of the format: the lines of the text `write_all` writes for
    well-formed PSMs read back, with `next` until it gives `None`, as the same
    PSMs in the same order.
   */
  lemma WriteThenRead(psms: seq<MspPsm>, fs: FloatSyntax)
    requires WellBehaved(fs) && forall k :: 0 <= k < |psms| ==> WellFormedPsm(psms[k], fs)
    ensures var lines := Lines(Records(psms, false, fs));
            NoPanicFrom(lines, 0) && ReadAllFrom(lines, 0, fs) == Ok(psms)
  {
    RecordsAsLines(psms, fs);
    FileLinesSafe(psms, fs);
    LinesUnlines(FileLines(psms, fs));
    var lines := Lines(Records(psms, false, fs));
    assert lines[0..] == lines;
    ReadFileFrom(lines, 0, psms, fs);
  }

  /**
    The other direction, for files in the writer's own layout: reading the
    lines of such a file and writing the PSMs back gives the same text, line
    for line.
   */
  lemma ReadThenWrite(psms: seq<MspPsm>, fs: FloatSyntax)
    requires WellBehaved(fs) && forall k :: 0 <= k < |psms| ==> WellFormedPsm(psms[k], fs)
    ensures var lines := FileLines(psms, fs);
            NoPanicFrom(lines, 0) && ReadAllFrom(lines, 0, fs).Ok?
            && Records(ReadAllFrom(lines, 0, fs).value, false, fs) == Unlines(lines)
  {
    var lines := FileLines(psms, fs);
    FileLinesSafe(psms, fs);
    assert lines[0..] == lines;
    ReadFileFrom(lines, 0, psms, fs);
    RecordsAsLines(psms, fs);
  }

  /** "Comment: " trims to "Comment:", a line that is neither blank nor one on which `next` panics. */
  lemma EmptyCommentTrim()
    ensures Trim("Comment: ") == "Comment:" && !IsBlank("Comment: ") && !Panics("Comment: ")
  {
    var line := "Comment: ";
    assert !IsWhitespace(line[0]) && !IsWhitespace(line[|line| - 2]);
    assert TrimStart(line) == line;
    assert line[..|line| - 1] == "Comment:";
    assert TrimEnd("Comment:") == "Comment:";
  }

  /** An empty comment is written as "Comment: ", which the trimmed reader sees as a line without ": ". */
  lemma EmptyCommentNotRead(acc: Pending, fs: FloatSyntax)
    ensures !IsBlank("Comment: ") && !Panics("Comment: ") && LineStep("Comment: ", acc, fs) == Err(UnexpectedLine)
  {
    EmptyCommentTrim();
    var t := "Comment:";
    assert "Comment" + [':'] == t;
    NotContainsStrEnd("Comment", ':', ": ");
    SplitStrNoMatch(t, ": ");
    assert !IsAsciiDigit(t[0]);
    assert LineStep("Comment: ", acc, fs) == HeaderStep(t, acc, fs);
  }
}
