/**
  The MSP reader: `MspReader::next` reads lines until a blank line or the end of
  the input and gathers one PSM from the `Key: value` header lines and the
  tab-separated peak lines it meets on the way.

  The input file is the sequence of its lines, each without its '\n'; the
  reader's position in the file is the index of the next line to read.
  `Scan` is the specification of one call of `next`; the method `Next` is the
  loop of the source proved equal to it.
 */
module MspReading {
  import opened Base
  import opened Text
  import opened Decimal
  import opened Floats
  import opened MspPsmCodec

  /** The reasons `next` gives up, one per `bail!`, `ensure!` or `?` of the source. */
  datatype ReadError =
    | PeakCountMismatch(expected: nat, parsed: nat)
    | MzNotNumber
    | IntensityMissing
    | IntensityNotNumber
    | AnnotationMissing
    | AnnotationNotQuoted
    | UnexpectedLine
    | MwNotNumber

  /** The local variables of `next` while it reads one record. */
  datatype Pending = Pending(
    found: bool, name: string, mw: real, comment: string, numPeaks: nat,
    mzList: seq<real>, intensityList: seq<real>, annotationList: seq<string>)

  /** The values `next` starts every call with. */
  const Start: Pending := Pending(false, "", 0.0, "", 0, [], [], [])

  /** The three lists have grown together. */
  predicate Balanced(acc: Pending) {
    |acc.mzList| == |acc.intensityList| == |acc.annotationList|
  }

  /**
    `line.is_empty() || line.chars().all(char::is_ascii_whitespace)`: the line
    that `read_line` gives still ends in '\n', which is ASCII whitespace, so the
    test is that of the line's text.
   */
  predicate IsBlank(line: string) {
    AllAsciiWhitespace(line)
  }

  /**
    A line that `trim` empties though it is not ASCII whitespace (a vertical tab,
    a no-break space): `chars().next().unwrap()` panics on it.
   */
  predicate Panics(line: string) {
    !IsBlank(line) && Trim(line) == ""
  }

  predicate NoPanicFrom(lines: seq<string>, i: nat) {
    forall k {:trigger Panics(lines[k])} :: i <= k < |lines| ==> !Panics(lines[k])
  }

  /** The annotation field without the double quotes it must start and end with. */
  function Unquote(field: string): (r: Option<string>)
    ensures r.Some? <==> |field| >= 2 && field[0] == '"' && field[|field| - 1] == '"'
    ensures r.Some? ==> field == "\"" + r.value + "\""
  {
    if |field| >= 2 && field[0] == '"' && field[|field| - 1] == '"' then Some(field[1..|field| - 1]) else None
  }

  /** A trimmed line starting with a digit: `mz`, `intensity` and `"annotation"`, separated by tabs. */
  function PeakStep(t: string, acc: Pending, fs: FloatSyntax): (r: Result<Pending, ReadError>)
    ensures var parts := Split(t, '\t');
            r.Ok? <==> (fs.parse(parts[0]).Some? && |parts| >= 2 && fs.parse(parts[1]).Some?
                        && |parts| >= 3 && Unquote(parts[2]).Some?)
    ensures var parts := Split(t, '\t');
            r.Ok? ==> r.value == acc.(mzList := acc.mzList + [fs.parse(parts[0]).value],
                                      intensityList := acc.intensityList + [fs.parse(parts[1]).value],
                                      annotationList := acc.annotationList + [Unquote(parts[2]).value])
  {
    var parts := Split(t, '\t');
    match fs.parse(parts[0])
    case None => Err(MzNotNumber)
    case Some(mz) =>
      if |parts| < 2 then Err(IntensityMissing)
      else
        match fs.parse(parts[1])
        case None => Err(IntensityNotNumber)
        case Some(intensity) =>
          if |parts| < 3 then Err(AnnotationMissing)
          else
            match Unquote(parts[2])
            case None => Err(AnnotationNotQuoted)
            case Some(a) =>
              Ok(acc.(mzList := acc.mzList + [mz], intensityList := acc.intensityList + [intensity],
                      annotationList := acc.annotationList + [a]))
  }

  /**
    Any other trimmed line: `key: value`, split at every ": " with the value
    taken from the second piece only. The four keys of the format set their
    field; every header line marks the header as seen.
   */
  function HeaderStep(t: string, acc: Pending, fs: FloatSyntax): (r: Result<Pending, ReadError>)
    ensures var parts := SplitStr(t, ": ");
            r.Err? <==> |parts| < 2 || (parts[0] == "MW" && fs.parse(parts[1]).None?)
    ensures r.Ok? ==> r.value.found && r.value.mzList == acc.mzList
                      && r.value.intensityList == acc.intensityList && r.value.annotationList == acc.annotationList
  {
    var parts := SplitStr(t, ": ");
    if |parts| < 2 then Err(UnexpectedLine)
    else
      var key := parts[0];
      var value := parts[1];
      var seen := acc.(found := true);
      if key == "Name" then Ok(seen.(name := value))
      else if key == "MW" then
        match fs.parse(value)
        case None => Err(MwNotNumber)
        case Some(x) => Ok(seen.(mw := x))
      else if key == "Comment" then Ok(seen.(comment := value))
      else if key == "Num peaks" then
        Ok(seen.(numPeaks := match ParseUsize(value) case Some(n) => n case None => 0))
      else Ok(seen)
  }

  /** One line that is neither blank nor panicking. */
  function LineStep(line: string, acc: Pending, fs: FloatSyntax): Result<Pending, ReadError>
    requires !IsBlank(line) && !Panics(line)
  {
    var t := Trim(line);
    if IsAsciiDigit(t[0]) then PeakStep(t, acc, fs) else HeaderStep(t, acc, fs)
  }

  /** The end of a record: nothing before a header line, otherwise the PSM if its peak count is right. */
  function Finish(acc: Pending): (r: Result<Option<MspPsm>, ReadError>)
    ensures r == Ok(None) <==> !acc.found
    ensures r.Err? <==> acc.found && acc.numPeaks != |acc.mzList|
    ensures r.Ok? && r.value.Some? ==>
              r.value.value.header == MspPsmHeader(acc.name, acc.mw, acc.comment, acc.numPeaks)
              && r.value.value.data == SpectrumData(acc.mzList, acc.intensityList)
              && r.value.value.annotationList == acc.annotationList
              && acc.numPeaks == |acc.mzList|
  {
    if !acc.found then Ok(None)
    else if acc.numPeaks != |acc.mzList| then Err(PeakCountMismatch(acc.numPeaks, |acc.mzList|))
    else Ok(Some(MspPsm(MspPsmHeader(acc.name, acc.mw, acc.comment, acc.numPeaks),
                        SpectrumData(acc.mzList, acc.intensityList), acc.annotationList)))
  }

  /**
    One call of `next` from line `i` with the values `acc` gathered so far: the
    result and the index of the next unread line. A blank line is consumed with
    the record it ends; so is the line a failure is reported on.
   */
  function Scan(lines: seq<string>, i: nat, acc: Pending, fs: FloatSyntax): (r: (Result<Option<MspPsm>, ReadError>, nat))
    requires i <= |lines| && NoPanicFrom(lines, i)
    ensures i <= r.1 <= |lines|
    ensures r.0.Ok? && r.0.value.Some? ==> acc.found || r.1 > i
    decreases |lines| - i
  {
    if i == |lines| then (Finish(acc), i)
    else if IsBlank(lines[i]) then (Finish(acc), i + 1)
    else
      match LineStep(lines[i], acc, fs)
      case Err(e) => (Err(e), i + 1)
      case Ok(next) => Scan(lines, i + 1, next, fs)
  }

  /** Iterating `next` until it gives `None` or fails, as `collect` does. */
  function ReadAllFrom(lines: seq<string>, i: nat, fs: FloatSyntax): Result<seq<MspPsm>, ReadError>
    requires i <= |lines| && NoPanicFrom(lines, i)
    decreases |lines| - i
  {
    var (r, j) := Scan(lines, i, Start, fs);
    match r
    case Err(e) => Err(e)
    case Ok(None) => Ok([])
    case Ok(Some(psm)) =>
      match ReadAllFrom(lines, j, fs)
      case Err(e) => Err(e)
      case Ok(rest) => Ok([psm] + rest)
  }

  class MspReader {
    var lines: seq<string>
    var pos: nat

    ghost predicate Valid()
      reads this
    {
      pos <= |lines| && NoPanicFrom(lines, pos)
    }

    constructor (lines: seq<string>)
      requires NoPanicFrom(lines, 0)
      ensures Valid() && this.lines == lines && pos == 0
    {
      this.lines := lines;
      pos := 0;
    }

    /** `next`: read one record, or `None` at a blank line or the end of the input before any header line. */
    method Next(fs: FloatSyntax) returns (r: Result<Option<MspPsm>, ReadError>)
      requires Valid()
      modifies this
      ensures Valid() && lines == old(lines)
      ensures (r, pos) == Scan(lines, old(pos), Start, fs)
      ensures old(pos) == |lines| ==> r == Ok(None) && pos == |lines|
    {
      var acc := Start;
      var i := pos;
      while true
        invariant pos == old(pos) && lines == old(lines)
        invariant pos <= i <= |lines| && NoPanicFrom(lines, i)
        invariant Scan(lines, pos, Start, fs) == Scan(lines, i, acc, fs)
        decreases |lines| - i
      {
        var eofReached := i == |lines|;
        var line := if eofReached then "" else lines[i];
        if eofReached || IsBlank(line) {
          if !acc.found {
            r := Ok(None);
          } else if acc.numPeaks != |acc.mzList| {
            r := Err(PeakCountMismatch(acc.numPeaks, |acc.mzList|));
          } else {
            r := Ok(Some(MspPsm(MspPsmHeader(acc.name, acc.mw, acc.comment, acc.numPeaks),
                                SpectrumData(acc.mzList, acc.intensityList), acc.annotationList)));
          }
          pos := if eofReached then i else i + 1;
          return;
        }
        assert !Panics(lines[i]);
        i := i + 1;
        var t := Trim(line);
        var step;
        if IsAsciiDigit(t[0]) {
          step := ReadPeakLine(t, acc, fs);
        } else {
          step := ReadHeaderLine(t, acc, fs);
        }
        if step.Err? {
          r, pos := Err(step.error), i;
          return;
        }
        acc := step.value;
      }
    }
  }

  /** The peak-line branch of `next`: the three lists grow one field at a time, and the first bad field stops the call. */
  method ReadPeakLine(t: string, acc: Pending, fs: FloatSyntax) returns (r: Result<Pending, ReadError>)
    ensures r == PeakStep(t, acc, fs)
  {
    var parts := Split(t, '\t');
    var mz := fs.parse(parts[0]);
    if mz.None? {
      return Err(MzNotNumber);
    }
    var mzList := acc.mzList + [mz.value];
    if |parts| < 2 {
      return Err(IntensityMissing);
    }
    var intensity := fs.parse(parts[1]);
    if intensity.None? {
      return Err(IntensityNotNumber);
    }
    var intensityList := acc.intensityList + [intensity.value];
    if |parts| < 3 {
      return Err(AnnotationMissing);
    }
    var annotation := parts[2];
    if !(|annotation| >= 2 && annotation[0] == '"' && annotation[|annotation| - 1] == '"') {
      return Err(AnnotationNotQuoted);
    }
    var annotationList := acc.annotationList + [annotation[1..|annotation| - 1]];
    r := Ok(acc.(mzList := mzList, intensityList := intensityList, annotationList := annotationList));
  }

  /** The header-line branch of `next`: `key: value`, with the four keys of the format setting their field. */
  method ReadHeaderLine(t: string, acc: Pending, fs: FloatSyntax) returns (r: Result<Pending, ReadError>)
    ensures r == HeaderStep(t, acc, fs)
  {
    var headerParts := SplitStr(t, ": ");
    if |headerParts| < 2 {
      return Err(UnexpectedLine);
    }
    var key := headerParts[0];
    var value := headerParts[1];
    var next := acc;
    if key == "Name" {
      next := next.(name := value);
    } else if key == "MW" {
      var x := fs.parse(value);
      if x.None? {
        return Err(MwNotNumber);
      }
      next := next.(mw := x.value);
    } else if key == "Comment" {
      next := next.(comment := value);
    } else if key == "Num peaks" {
      var n := ParseUsize(value);
      next := next.(numPeaks := if n.Some? then n.value else 0);
    }
    r := Ok(next.(found := true));
  }

  // ---------------------------------------------------------------------------
  // Properties of one call

  /**
    A header line sets the field its key names to the value, the text between
    the first and the second ": "; `Num peaks` falls back to 0 when the value is
    not a `usize`; no other field changes.
   */
  lemma HeaderStepFields(t: string, acc: Pending, fs: FloatSyntax)
    requires HeaderStep(t, acc, fs).Ok?
    ensures var r := HeaderStep(t, acc, fs).value;
            var key := SplitStr(t, ": ")[0];
            var value := SplitStr(t, ": ")[1];
            r.name == (if key == "Name" then value else acc.name)
            && r.mw == (if key == "MW" then fs.parse(value).value else acc.mw)
            && r.comment == (if key == "Comment" then value else acc.comment)
            && r.numPeaks == (if key != "Num peaks" then acc.numPeaks
                              else if ParseUsize(value).Some? then ParseUsize(value).value else 0)
  {
  }

  /** A line `next` files as a peak line: not blank, and its trimmed text starts with a digit. */
  predicate IsPeakLine(line: string) {
    !IsBlank(line) && Trim(line) != "" && IsAsciiDigit(Trim(line)[0])
  }

  /** A returned PSM has as many m/z values, intensities and annotations as it declares peaks. */
  lemma {:induction false} ScanBalanced(lines: seq<string>, i: nat, acc: Pending, fs: FloatSyntax)
    requires i <= |lines| && NoPanicFrom(lines, i) && Balanced(acc)
    ensures var r := Scan(lines, i, acc, fs).0;
            r.Ok? && r.value.Some? ==>
              |r.value.value.data.mzList| == |r.value.value.data.intensityList| == |r.value.value.annotationList|
              == r.value.value.header.numPeaks
    decreases |lines| - i
  {
    if i < |lines| && !IsBlank(lines[i]) {
      var s := LineStep(lines[i], acc, fs);
      if s.Ok? {
        ScanBalanced(lines, i + 1, s.value, fs);
      }
    }
  }

  /** The lines a call reads past, all but the last, are not blank. */
  lemma {:induction false} ScanNoBlank(lines: seq<string>, i: nat, acc: Pending, fs: FloatSyntax, k: nat)
    requires i <= |lines| && NoPanicFrom(lines, i)
    requires i <= k < Scan(lines, i, acc, fs).1 - 1
    ensures !IsBlank(lines[k])
    decreases |lines| - i
  {
    if i < |lines| && !IsBlank(lines[i]) && k > i {
      match LineStep(lines[i], acc, fs)
      case Ok(next) =>
        assert Scan(lines, i, acc, fs) == Scan(lines, i + 1, next, fs);
        ScanNoBlank(lines, i + 1, next, fs, k);
    }
  }

  /** A call that succeeds stops at the end of the input or just after a blank line. */
  lemma {:induction false} ScanStopsAtBlank(lines: seq<string>, i: nat, acc: Pending, fs: FloatSyntax)
    requires i <= |lines| && NoPanicFrom(lines, i)
    requires Scan(lines, i, acc, fs).0.Ok?
    ensures var j := Scan(lines, i, acc, fs).1;
            j == |lines| || (0 < j && IsBlank(lines[j - 1]))
    decreases |lines| - i
  {
    if i < |lines| && !IsBlank(lines[i]) {
      match LineStep(lines[i], acc, fs)
      case Err(e) =>
      case Ok(next) =>
        assert Scan(lines, i, acc, fs) == Scan(lines, i + 1, next, fs);
        ScanStopsAtBlank(lines, i + 1, next, fs);
    }
  }

  /**
    A record ends at the first blank line, which is consumed, or at the end of
    the input; when a line fails, `next` stops right after it.
   */
  lemma ScanExtent(lines: seq<string>, i: nat, acc: Pending, fs: FloatSyntax)
    requires i <= |lines| && NoPanicFrom(lines, i)
    ensures var (r, j) := Scan(lines, i, acc, fs);
            (forall k :: i <= k < j - 1 ==> !IsBlank(lines[k]))
            && (j < |lines| ==> i < j)
            && (r.Ok? ==> j == |lines| || IsBlank(lines[j - 1]))
  {
    var j: int := Scan(lines, i, acc, fs).1;
    forall k | i <= k < j - 1 ensures !IsBlank(lines[k]) {
      ScanNoBlank(lines, i, acc, fs, k);
    }
    if Scan(lines, i, acc, fs).0.Ok? {
      ScanStopsAtBlank(lines, i, acc, fs);
    }
  }

  /**
    `next` gives `None` only when no header line was read: every line up to the
    blank line or the end of the input was a peak line, whose values are dropped.
   */
  lemma {:induction false} ScanNone(lines: seq<string>, i: nat, acc: Pending, fs: FloatSyntax)
    requires i <= |lines| && NoPanicFrom(lines, i)
    ensures var (r, j) := Scan(lines, i, acc, fs);
            r == Ok(None) ==> !acc.found && forall k :: i <= k < j ==> IsBlank(lines[k]) || IsPeakLine(lines[k])
    decreases |lines| - i
  {
    if i < |lines| && !IsBlank(lines[i]) {
      var s := LineStep(lines[i], acc, fs);
      assert !Panics(lines[i]);
      if s.Ok? {
        ScanNone(lines, i + 1, s.value, fs);
        if !IsAsciiDigit(Trim(lines[i])[0]) {
          assert s.value.found;
          FoundSticks(lines, i + 1, s.value, fs);
        }
      }
    }
  }

  /** Once a header line has been read, the call ends in a PSM or a failure, never in `None`. */
  lemma {:induction false} FoundSticks(lines: seq<string>, i: nat, acc: Pending, fs: FloatSyntax)
    requires i <= |lines| && NoPanicFrom(lines, i) && acc.found
    ensures Scan(lines, i, acc, fs).0 != Ok(None)
    decreases |lines| - i
  {
    if i < |lines| && !IsBlank(lines[i]) {
      var s := LineStep(lines[i], acc, fs);
      if s.Ok? {
        FoundSticks(lines, i + 1, s.value, fs);
      }
    }
  }
}
