/**
  The MGF reader (`mgf/reader.rs`). One call of `Reader::next` reads lines,
  trims them and skips the empty ones, and gathers the values of one
  `BEGIN IONS … END IONS` block in local variables: a line starting with a
  numeric character is a peak (its first two words are the m/z and the
  intensity); a `TITLE=`, `PEPMASS=`, `RTINSECONDS=` or `CHARGE=` line sets its
  value to the rest of the line; `BEGIN IONS` marks the block as open; at
  `END IONS` the gathered texts go to `create_spectrum`, which parses them. The
  end of the input inside an open block is an error, and otherwise the end of
  the iteration.

  The input is the sequence of lines `read_line` returns, each without its
  '\n'. `char::is_numeric` consults Unicode's table of numeric characters; the
  table is a parameter `numeric`, and `Latin1Numeric` pins it down on the
  first 256 code points, which is all the laws need.
 */
module MgfReading {
  import opened Base
  import opened Text
  import opened Decimal
  import opened Floats
  import opened MgfSpectra

  /** The reasons `next` gives up, one per `anyhow!` or `?` of the source. */
  datatype ReadError =
    | IncompleteSpectrum
    | MzMissing
    | IntensityMissing
    | PrecursorMzNotNumber
    | ChargeNotInteger
    | RetentionTimeNotNumber
    | MzNotNumber
    | IntensityNotNumber

  /** `char::is_numeric` on the Latin-1 range: the ASCII digits, '²', '³', '¹', '¼', '½' and '¾'. */
  predicate Latin1Numeric(c: char) {
    IsAsciiDigit(c) || c == '\U{00B2}' || c == '\U{00B3}' || c == '\U{00B9}' || ('\U{00BC}' <= c <= '\U{00BE}')
  }

  /** A table of numeric characters that agrees with Unicode's on the Latin-1 range. */
  ghost predicate NumericTable(numeric: char -> bool) {
    forall c: char :: c as int < 0x100 ==> (numeric(c) <==> Latin1Numeric(c))
  }

  // ---------------------------------------------------------------------------
  // create_spectrum

  /** The local variables of `next`: the block's texts as read, before any parsing. */
  datatype Pending = Pending(
    inSpectrum: bool,
    title: string,
    precursorMz: string,
    precursorCharge: Option<string>,
    retentionTime: Option<string>,
    mzList: seq<string>,
    intensityList: seq<string>)

  /** The values every call of `next` starts with. */
  const Start: Pending := Pending(false, "", "", None, None, [], [])

  /** `fast_float::parse` on each text in turn, collected: `None` at the first text that is not a number. */
  function ParseAll(ss: seq<string>, fs: FloatSyntax): (r: Option<seq<real>>)
    ensures r.Some? <==> forall k :: 0 <= k < |ss| ==> fs.parse(ss[k]).Some?
    ensures r.Some? ==> |r.value| == |ss| && forall k :: 0 <= k < |ss| ==> r.value[k] == fs.parse(ss[k]).value
    decreases |ss|
  {
    if |ss| == 0 then Some([])
    else
      match fs.parse(ss[0])
      case None => None
      case Some(x) =>
        match ParseAll(ss[1..], fs)
        case None => None
        case Some(xs) => Some([x] + xs)
  }

  /** `parse::<i8>()` on the whole `CHARGE=` value. */
  function ParseCharge(s: string): (r: Option<I8>)
    ensures r.Some? <==> ParseI8(s).Some?
    ensures r.Some? ==> r.value == ParseI8(s).value
  {
    match ParseI8(s)
    case Some(z) => Some(z)
    case None => None
  }

  /** Every text of the block is a number of its kind (the charge as `parseCharge` reads it). */
  predicate Parses(p: Pending, fs: FloatSyntax, parseCharge: string -> Option<I8>) {
    fs.parse(p.precursorMz).Some?
    && (p.precursorCharge.Some? ==> parseCharge(p.precursorCharge.value).Some?)
    && (p.retentionTime.Some? ==> fs.parse(p.retentionTime.value).Some?)
    && (forall k :: 0 <= k < |p.mzList| ==> fs.parse(p.mzList[k]).Some?)
    && (forall k :: 0 <= k < |p.intensityList| ==> fs.parse(p.intensityList[k]).Some?)
  }

  /**
    `create_spectrum` on the gathered texts, with the charge parser as a
    parameter (the source's is `ParseCharge`): the texts are parsed in the
    order of the arguments, and the first one that fails decides the error. An
    absent charge or retention time stays absent.
   */
  function Build(p: Pending, fs: FloatSyntax, parseCharge: string -> Option<I8>): (r: Result<Spectrum, ReadError>)
    ensures r.Ok? <==> Parses(p, fs, parseCharge)
    ensures r == Err(PrecursorMzNotNumber) <==> fs.parse(p.precursorMz).None?
    ensures r == Err(ChargeNotInteger) <==>
              fs.parse(p.precursorMz).Some? && p.precursorCharge.Some? && parseCharge(p.precursorCharge.value).None?
    ensures r == Err(RetentionTimeNotNumber) <==>
              fs.parse(p.precursorMz).Some? && (p.precursorCharge.Some? ==> parseCharge(p.precursorCharge.value).Some?)
              && p.retentionTime.Some? && fs.parse(p.retentionTime.value).None?
    ensures r == Err(IntensityNotNumber) ==> forall k :: 0 <= k < |p.mzList| ==> fs.parse(p.mzList[k]).Some?
    ensures r.Ok? ==>
              var s := r.value;
              s.title == p.title && s.precursorMz == fs.parse(p.precursorMz).value
              && (s.precursorCharge.Some? <==> p.precursorCharge.Some?)
              && (p.precursorCharge.Some? ==> s.precursorCharge.value == parseCharge(p.precursorCharge.value).value)
              && (s.retentionTime.Some? <==> p.retentionTime.Some?)
              && (p.retentionTime.Some? ==> s.retentionTime.value == fs.parse(p.retentionTime.value).value)
              && |s.mzList| == |p.mzList| && (forall k :: 0 <= k < |p.mzList| ==> s.mzList[k] == fs.parse(p.mzList[k]).value)
              && |s.intensityList| == |p.intensityList|
              && (forall k :: 0 <= k < |p.intensityList| ==> s.intensityList[k] == fs.parse(p.intensityList[k]).value)
  {
    match fs.parse(p.precursorMz)
    case None => Err(PrecursorMzNotNumber)
    case Some(mz) =>
      var charge := match p.precursorCharge case Some(c) => Some(parseCharge(c)) case None => None;
      if charge.Some? && charge.value.None? then Err(ChargeNotInteger)
      else
        var rt := match p.retentionTime case Some(t) => Some(fs.parse(t)) case None => None;
        if rt.Some? && rt.value.None? then Err(RetentionTimeNotNumber)
        else
          match ParseAll(p.mzList, fs)
          case None => Err(MzNotNumber)
          case Some(mzs) =>
            match ParseAll(p.intensityList, fs)
            case None => Err(IntensityNotNumber)
            case Some(intensities) =>
              Ok(Spectrum(p.title, mz, if charge.Some? then Some(charge.value.value) else None,
                          if rt.Some? then Some(rt.value.value) else None, mzs, intensities))
  }

  /** `create_spectrum` as the source has it. */
  function CreateSpectrum(p: Pending, fs: FloatSyntax): Result<Spectrum, ReadError> {
    Build(p, fs, ParseCharge)
  }

  // ---------------------------------------------------------------------------
  // next

  /** A line as `next` sees it once trimmed, in the order of its tests. */
  datatype MgfLine =
    | Blank
    | Peak(words: seq<string>)
    | Title(value: string)
    | PepMass(value: string)
    | RtInSeconds(value: string)
    | Charge(value: string)
    | BeginIons
    | EndIons
    | Other

  /** `trim`, then the tests of `next` in order. */
  function Classify(raw: string, numeric: char -> bool): MgfLine {
    ClassifyTrimmed(Trim(raw), numeric)
  }

  /** The tests of `next` on a trimmed line, in order; `Other` lines are read past. */
  function ClassifyTrimmed(t: string, numeric: char -> bool): MgfLine {
    if t == "" then Blank
    else if numeric(t[0]) then Peak(Words(t))
    else if StartsWith(t, "TITLE=") then Title(t[6..])
    else if StartsWith(t, "PEPMASS=") then PepMass(t[8..])
    else if StartsWith(t, "RTINSECONDS=") then RtInSeconds(t[12..])
    else if StartsWith(t, "CHARGE=") then Charge(t[7..])
    else if t == "BEGIN IONS" then BeginIons
    else if t == "END IONS" then EndIons
    else Other
  }

  function Classified(lines: seq<string>, numeric: char -> bool): (ls: seq<MgfLine>)
    ensures |ls| == |lines| && forall i :: 0 <= i < |lines| ==> ls[i] == Classify(lines[i], numeric)
  {
    seq(|lines|, i requires 0 <= i < |lines| => Classify(lines[i], numeric))
  }

  /** What a line does to a call of `next`: it goes on with new values, or it ends the call. */
  datatype LineStep = Continue(acc: Pending) | Stop(block: Result<Pending, ReadError>)

  /**
    The branches of `next` for one line: a peak line appends its first two
    words (a missing word is an error), a `KEY=value` line sets its value,
    `BEGIN IONS` opens the block, `END IONS` ends the call with the values
    gathered, and any other line is read past.
   */
  function LineEffect(l: MgfLine, acc: Pending): LineStep {
    match l
    case Peak(ws) =>
      if |ws| == 0 then Stop(Err(MzMissing))
      else if |ws| < 2 then Stop(Err(IntensityMissing))
      else Continue(acc.(mzList := acc.mzList + [ws[0]], intensityList := acc.intensityList + [ws[1]]))
    case Title(v) => Continue(acc.(title := v))
    case PepMass(v) => Continue(acc.(precursorMz := v))
    case RtInSeconds(v) => Continue(acc.(retentionTime := Some(v)))
    case Charge(v) => Continue(acc.(precursorCharge := Some(v)))
    case BeginIons => Continue(acc.(inSpectrum := true))
    case EndIons => Stop(Ok(acc))
    case Blank => Continue(acc)
    case Other => Continue(acc)
  }

  /**
    One call of `next` from line `i` with the values `acc` gathered so far:
    the block's texts at `END IONS` or the error, or `None` at the end of the
    input outside a block; and the index of the next unread line.
   */
  function Scan(ls: seq<MgfLine>, i: nat, acc: Pending): (r: (Option<Result<Pending, ReadError>>, nat))
    requires i <= |ls|
    ensures i <= r.1 <= |ls|
    ensures r.0.None? ==> r.1 == |ls|
    ensures r.1 == i ==> i == |ls| && (r.0.Some? <==> acc.inSpectrum)
    decreases |ls| - i
  {
    if i == |ls| then (if acc.inSpectrum then Some(Err(IncompleteSpectrum)) else None, i)
    else
      match LineEffect(ls[i], acc)
      case Continue(next) => Scan(ls, i + 1, next)
      case Stop(block) => (Some(block), i + 1)
  }

  /** Calling `next` until it gives `None`: the blocks' texts, or the errors, in order. */
  function ReadAllFrom(ls: seq<MgfLine>, i: nat): seq<Result<Pending, ReadError>>
    requires i <= |ls|
    decreases |ls| - i
  {
    var (r, j) := Scan(ls, i, Start);
    if r.None? then [] else [r.value] + (if j < |ls| then ReadAllFrom(ls, j) else [])
  }

  /** What `next` returns for a block's texts or an error, with the charge parser `parseCharge`. */
  function Outcome(b: Result<Pending, ReadError>, fs: FloatSyntax, parseCharge: string -> Option<I8>): Result<Spectrum, ReadError> {
    match b
    case Err(e) => Err(e)
    case Ok(p) => Build(p, fs, parseCharge)
  }

  /** The items a new reader yields on `lines`, with the charge parser `parseCharge`. */
  function ReadAllWith(lines: seq<string>, numeric: char -> bool, fs: FloatSyntax,
                       parseCharge: string -> Option<I8>): (r: seq<Result<Spectrum, ReadError>>)
    ensures var bs := ReadAllFrom(Classified(lines, numeric), 0);
            |r| == |bs| && forall k :: 0 <= k < |bs| ==> r[k] == Outcome(bs[k], fs, parseCharge)
  {
    var bs := ReadAllFrom(Classified(lines, numeric), 0);
    seq(|bs|, k requires 0 <= k < |bs| => Outcome(bs[k], fs, parseCharge))
  }

  /** The items a new reader yields on `lines`. */
  function ReadAll(lines: seq<string>, numeric: char -> bool, fs: FloatSyntax): seq<Result<Spectrum, ReadError>> {
    ReadAllWith(lines, numeric, fs, ParseCharge)
  }

  class MgfReader {
    var lines: seq<string>
    var pos: nat

    ghost predicate Valid()
      reads this
    {
      pos <= |lines|
    }

    constructor (lines: seq<string>)
      ensures Valid() && this.lines == lines && pos == 0
    {
      this.lines := lines;
      pos := 0;
    }

    /** `next`: the next block as a spectrum or an error, or `None` at the end of the input. */
    method Next(numeric: char -> bool, fs: FloatSyntax) returns (r: Option<Result<Spectrum, ReadError>>)
      requires Valid()
      modifies this
      ensures Valid() && lines == old(lines)
      ensures var s := Scan(Classified(lines, numeric), old(pos), Start);
              pos == s.1 && r == (if s.0.None? then None else Some(Outcome(s.0.value, fs, ParseCharge)))
    {
      var block := ReadBlock(numeric);
      match block
      case None =>
        r := None;
      case Some(Err(e)) =>
        r := Some(Err(e));
      case Some(Ok(p)) =>
        var spectrum := CreateSpectrum(p, fs);
        r := Some(spectrum);
    }

    /**
      The loop of `next`: the lines up to `END IONS`, an error, or the end of
      the input, and the texts gathered from them. The seven values the source
      keeps in local variables are the fields of one `Pending` record here.
     */
    method ReadBlock(numeric: char -> bool) returns (block: Option<Result<Pending, ReadError>>)
      requires Valid()
      modifies this
      ensures Valid() && lines == old(lines)
      ensures (block, pos) == Scan(Classified(lines, numeric), old(pos), Start)
    {
      ghost var ls := Classified(lines, numeric);
      var acc := Start;
      while true
        invariant pos <= |lines| && lines == old(lines)
        invariant Scan(ls, old(pos), Start) == Scan(ls, pos, acc)
        decreases |lines| - pos
      {
        if pos == |lines| {
          return if acc.inSpectrum then Some(Err(IncompleteSpectrum)) else None;
        }
        var line := Trim(lines[pos]);
        assert ls[pos] == ClassifyTrimmed(line, numeric);
        pos := pos + 1;
        if line != "" {
          var step;
          if numeric(line[0]) {
            step := ReadPeakLine(line, acc, numeric);
          } else {
            step := ReadKeyedLine(line, acc, numeric);
          }
          match step
          case Continue(next) =>
            acc := next;
          case Stop(b) =>
            return Some(b);
        }
      }
    }
  }

  /**
    The branch of `next` for a line that starts with a numeric character: its
    first two words are the m/z and intensity texts, and a missing word ends
    the call with an error.
   */
  method ReadPeakLine(line: string, acc: Pending, numeric: char -> bool) returns (step: LineStep)
    requires line != "" && numeric(line[0])
    ensures step == LineEffect(ClassifyTrimmed(line, numeric), acc)
  {
    var split := Words(line);
    if |split| == 0 {
      return Stop(Err(MzMissing));
    }
    var mzList := acc.mzList + [split[0]];
    if |split| < 2 {
      return Stop(Err(IntensityMissing));
    }
    var intensityList := acc.intensityList + [split[1]];
    step := Continue(acc.(mzList := mzList, intensityList := intensityList));
  }

  /**
    The branches of `next` for a line that does not start with a numeric
    character: a `KEY=value` line sets its value, `BEGIN IONS` opens the block,
    `END IONS` ends the call with the values gathered, and any other line is
    read past.
   */
  method ReadKeyedLine(line: string, acc: Pending, numeric: char -> bool) returns (step: LineStep)
    requires line != "" && !numeric(line[0])
    ensures step == LineEffect(ClassifyTrimmed(line, numeric), acc)
  {
    if StartsWith(line, "TITLE=") {
      step := Continue(acc.(title := line[6..]));
    } else if StartsWith(line, "PEPMASS=") {
      step := Continue(acc.(precursorMz := line[8..]));
    } else if StartsWith(line, "RTINSECONDS=") {
      step := Continue(acc.(retentionTime := Some(line[12..])));
    } else if StartsWith(line, "CHARGE=") {
      step := Continue(acc.(precursorCharge := Some(line[7..])));
    } else if line == "BEGIN IONS" {
      step := Continue(acc.(inSpectrum := true));
    } else if line == "END IONS" {
      step := Stop(Ok(acc));
    } else {
      step := Continue(acc);
    }
  }
}
