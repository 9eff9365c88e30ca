/**
  MSP peak annotations and the conversion between the raw PSM a reader gives
  (`MspPsm`, annotations as text) and the parsed PSM (`MspParsedPsm`, annotations
  as `Fragment` or `Sequence` values).

  Decoding (`to_parsed_psm`) is a loop over the peaks that scans each annotation
  with a character iterator; it is modelled by methods proved equal to the
  specification functions below. Encoding (`to_psm`) is a map and join, modelled
  by functions. The round trip `ParsedPsmRoundTrip` ties the two together.
 */
module MspPsmCodec {
  import opened Base
  import opened Text
  import opened Decimal
  import opened Floats

  // ---------------------------------------------------------------------------
  // Data model

  datatype MspPsmHeader = MspPsmHeader(name: string, mw: real, comment: string, numPeaks: nat)

  datatype SpectrumData = SpectrumData(mzList: seq<real>, intensityList: seq<real>)

  /** A PSM as read from an MSP file: the peak annotations are still text. */
  datatype MspPsm = MspPsm(header: MspPsmHeader, data: SpectrumData, annotationList: seq<string>)

  /** The trailing `numerator/denominator value` pair of a peak annotation. */
  datatype MspPeakUnknownData = MspPeakUnknownData(numerator: nat, denominator: nat, value: real)

  /**
    A fragment annotation such as `y4-17^2/-0.02`. The source's neutral loss is
    an `f64`, but the decoder only ever reads it from a run of digits, so here it
    is a natural number (`DecimalLossMisread` shows what a fractional loss would
    become); `charge` is an `i8`.
   */
  datatype MspFragAnnotation = MspFragAnnotation(
    ionType: char, fragIndex: nat, neutralLoss: Option<nat>, charge: Option<int>, mzError: Option<real>)

  /** A sequence annotation such as `IKC/0.12`. */
  datatype MspSeqAnnotation = MspSeqAnnotation(sequence: string, mzError: Option<real>)

  datatype MspPeakAnnotation = Fragment(frag: MspFragAnnotation) | Sequence(seqAnnotation: MspSeqAnnotation)

  datatype MspPeak = MspPeak(
    peakIndex: nat, peakMz: real, peakIntensity: real,
    unknown: Option<MspPeakUnknownData>, annotations: seq<MspPeakAnnotation>)

  datatype MspParsedPsm = MspParsedPsm(
    comment: string, sequence: string, mass: real, mz: real, charge: int, peaks: seq<MspPeak>)

  /** The reasons `to_parsed_psm` gives up, one per failing check or parse of the source. */
  datatype PsmError =
    | NameWithoutSlash
    | ChargeNotInteger
    | MzErrorNotNumber
    | NeutralLossNotNumber
    | FragmentChargeNotInteger
    | TrailingCharacters
    | FragmentIndexNotInteger
    | NumeratorNotInteger
    | DenominatorNotInteger
    | UnknownValueNotNumber

  /** `prefix` put in front of a successful list; an error passes through. */
  function Prepend<T>(prefix: seq<T>, r: Result<seq<T>, PsmError>): Result<seq<T>, PsmError> {
    match r
    case Ok(v) => Ok(prefix + v)
    case Err(e) => Err(e)
  }

  lemma PrependNothing<T>(r: Result<seq<T>, PsmError>)
    ensures Prepend([], r) == r
  {
    if r.Ok? {
      assert [] + r.value == r.value;
    }
  }

  lemma PrependTwice<T>(a: seq<T>, b: seq<T>, r: Result<seq<T>, PsmError>)
    ensures Prepend(a, Prepend(b, r)) == Prepend(a + b, r)
  {
    if r.Ok? {
      assert a + (b + r.value) == (a + b) + r.value;
    }
  }

  // ---------------------------------------------------------------------------
  // The character scanner

  /** The end of the run of ASCII digits that starts at `i`. */
  function DigitRunEnd(s: string, i: nat): (j: nat)
    requires i <= |s|
    ensures i <= j <= |s|
    ensures forall k :: i <= k < j ==> IsAsciiDigit(s[k])
    ensures j == |s| || !IsAsciiDigit(s[j])
    decreases |s| - i
  {
    if i == |s| || !IsAsciiDigit(s[i]) then i else DigitRunEnd(s, i + 1)
  }

  /**
    `chars.by_ref().take_while(char::is_ascii_digit)` on an iterator standing at
    position `i`: the digit run, and where the iterator stands afterwards. The
    character that stops the run is consumed too, so the new position is one past
    it unless the text ended.
   */
  function TakeDigits(s: string, i: nat): (r: (string, nat))
    requires i <= |s|
  {
    var j := DigitRunEnd(s, i);
    (s[i..j], if j < |s| then j + 1 else j)
  }

  /** The digit run is the longest run of digits at `i`, and the iterator never moves backwards or past the end. */
  lemma TakeDigitsShape(s: string, i: nat)
    requires i <= |s|
    ensures AllDigits(TakeDigits(s, i).0)
    ensures i + |TakeDigits(s, i).0| <= TakeDigits(s, i).1 <= |s|
    ensures TakeDigits(s, i).1 == |s| || TakeDigits(s, i).1 == i + |TakeDigits(s, i).0| + 1
    ensures i + |TakeDigits(s, i).0| < |s| ==> !IsAsciiDigit(s[i + |TakeDigits(s, i).0|])
  {
  }

  /** A run of digits followed by the end of the text or by a non-digit, which is consumed. */
  lemma TakeDigitsOf(pre: string, d: string, post: string)
    requires AllDigits(d) && (|post| == 0 || !IsAsciiDigit(post[0]))
    ensures TakeDigits(pre + d + post, |pre|) == (d, if |post| == 0 then |pre| + |d| else |pre| + |d| + 1)
  {
    var s := pre + d + post;
    assert forall k :: |pre| <= k < |pre| + |d| ==> s[k] == d[k - |pre|];
    assert |post| > 0 ==> s[|pre| + |d|] == post[0];
    DigitRunEndIs(s, |pre|, |pre| + |d|);
    assert s[|pre|..|pre| + |d|] == d;
  }

  /** The end of a digit run is the one position that bounds a run of digits. */
  lemma {:induction false} DigitRunEndIs(s: string, i: nat, j: nat)
    requires i <= j <= |s|
    requires forall k :: i <= k < j ==> IsAsciiDigit(s[k])
    requires j == |s| || !IsAsciiDigit(s[j])
    ensures DigitRunEnd(s, i) == j
    decreases j - i
  {
    if i < j {
      DigitRunEndIs(s, i + 1, j);
    }
  }

  /** `take_while` over the characters from `from`: a loop that stops after the first non-digit. */
  method TakeDigitRun(s: string, from: nat) returns (run: string, next: nat)
    requires from <= |s|
    ensures (run, next) == TakeDigits(s, from)
  {
    var i := from;
    run := "";
    while i < |s| && IsAsciiDigit(s[i])
      invariant from <= i <= |s|
      invariant run == s[from..i]
      invariant forall k :: from <= k < i ==> IsAsciiDigit(s[k])
    {
      run := run + [s[i]];
      i := i + 1;
    }
    DigitRunEndIs(s, from, i);
    next := if i < |s| then i + 1 else i;
  }

  // ---------------------------------------------------------------------------
  // Decoding: specification

  /**
    The neutral loss and charge that follow the fragment index, read from position
    `p` of `before`. A '-' anywhere in the tag means a neutral-loss digit run comes
    next (it must not be empty), then a charge run if a '^' occurs; a '^' without
    '-' means a charge run; with neither, nothing may follow the character that
    ended the index.
   */
  function ModifiersOf(before: string, p: nat): Result<(Option<nat>, Option<int>), PsmError>
    requires p <= |before|
  {
    if '-' in before then
      var (lossText, p2) := TakeDigits(before, p);
      if |lossText| == 0 then Err(NeutralLossNotNumber)
      else if '^' in before then
        var (chargeText, _) := TakeDigits(before, p2);
        match ParseI8(chargeText)
        case None => Err(FragmentChargeNotInteger)
        case Some(z) => Ok((Some(DigitsValue(lossText)), Some(z)))
      else Ok((Some(DigitsValue(lossText)), None))
    else if '^' in before then
      var (chargeText, _) := TakeDigits(before, p);
      match ParseI8(chargeText)
      case None => Err(FragmentChargeNotInteger)
      case Some(z) => Ok((None, Some(z)))
    else if p < |before| then Err(TrailingCharacters)
    else Ok((None, None))
  }

  /** A tag without its `/error` part. */
  function TagBodyOf(before: string, mzError: Option<real>): Result<MspPeakAnnotation, PsmError> {
    if !HasAsciiDigit(before) then Ok(Sequence(MspSeqAnnotation(before, mzError)))
    else
      var (indexText, p) := TakeDigits(before, 1);
      match ModifiersOf(before, p)
      case Err(e) => Err(e)
      case Ok(mods) =>
        match ParseU16(indexText)
        case None => Err(FragmentIndexNotInteger)
        case Some(index) => Ok(Fragment(MspFragAnnotation(before[0], index, mods.0, mods.1, mzError)))
  }

  /** One comma-separated tag: the text after the first '/' is the m/z error, parsed first. */
  function TagOf(tag: string, fs: FloatSyntax): Result<MspPeakAnnotation, PsmError> {
    var parts := Split(tag, '/');
    if |parts| >= 2 then
      match fs.parse(parts[1])
      case None => Err(MzErrorNotNumber)
      case Some(e) => TagBodyOf(parts[0], Some(e))
    else TagBodyOf(tag, None)
  }

  /** The tags from position `k` on, decoded in order; the first failure is the result. */
  function TagsFrom(tags: seq<string>, k: nat, fs: FloatSyntax): Result<seq<MspPeakAnnotation>, PsmError>
    requires k <= |tags|
    decreases |tags| - k
  {
    if k == |tags| then Ok([])
    else
      match TagOf(tags[k], fs)
      case Err(e) => Err(e)
      case Ok(a) => Prepend([a], TagsFrom(tags, k + 1, fs))
  }

  /** The matched annotations of the first whitespace part of an annotation. */
  function MatchedOf(firstPart: string, fs: FloatSyntax): Result<seq<MspPeakAnnotation>, PsmError> {
    TagsFrom(Split(firstPart, ','), 0, fs)
  }

  /** The whitespace parts of an annotation after the first; `None` is a missing part. */
  function PartOf(annotation: string, k: nat): Option<string> {
    var w := Words(annotation);
    if k < |w| then Some(w[k]) else None
  }

  /**
    An annotation the source does not panic on: it starts with '?' or has a first
    whitespace part, and an `n/d` second part whose numerator parses has a '/'.
   */
  predicate AnnotationDecodable(annotation: string) {
    (StartsWith(annotation, "?") || |Words(annotation)| >= 1)
    && (|Words(annotation)| >= 3 && ParseUsize(Split(Words(annotation)[1], '/')[0]).Some?
        ==> |Split(Words(annotation)[1], '/')| >= 2)
  }

  /** The annotations of a peak: none for an annotation starting with '?'. */
  function AnnotationsOf(annotation: string, fs: FloatSyntax): Result<seq<MspPeakAnnotation>, PsmError>
    requires AnnotationDecodable(annotation)
  {
    if StartsWith(annotation, "?") then Ok([]) else MatchedOf(Words(annotation)[0], fs)
  }

  /**
    `_create_msp_peak`: the unknown triple is decoded when the second and third
    whitespace parts both exist; numerator, denominator and value are parsed in
    that order.
   */
  function CreateMspPeak(
    peakIdx: nat, mz: real, intensity: real, annotations: seq<MspPeakAnnotation>,
    part2: Option<string>, part3: Option<string>, fs: FloatSyntax): (r: Result<MspPeak, PsmError>)
    requires part2.Some? && part3.Some? && ParseUsize(Split(part2.value, '/')[0]).Some?
             ==> |Split(part2.value, '/')| >= 2
    ensures r.Ok? ==> r.value.peakIndex == peakIdx && r.value.peakMz == mz
                      && r.value.peakIntensity == intensity && r.value.annotations == annotations
    ensures r.Ok? ==> (r.value.unknown.Some? <==> part2.Some? && part3.Some?)
    ensures r.Err? <==> part2.Some? && part3.Some?
                        && (ParseUsize(Split(part2.value, '/')[0]).None?
                            || ParseUsize(Split(part2.value, '/')[1]).None?
                            || fs.parse(part3.value).None?)
  {
    if part2.None? || part3.None? then Ok(MspPeak(peakIdx, mz, intensity, None, annotations))
    else
      var parts := Split(part2.value, '/');
      match ParseUsize(parts[0])
      case None => Err(NumeratorNotInteger)
      case Some(numerator) =>
        match ParseUsize(parts[1])
        case None => Err(DenominatorNotInteger)
        case Some(denominator) =>
          match fs.parse(part3.value)
          case None => Err(UnknownValueNotNumber)
          case Some(value) =>
            Ok(MspPeak(peakIdx, mz, intensity, Some(MspPeakUnknownData(numerator, denominator, value)), annotations))
  }

  /** How many peaks `zip` yields: the shortest of the three lists. */
  function ZipLen(psm: MspPsm): nat {
    var a := |psm.data.mzList|;
    var b := |psm.data.intensityList|;
    var c := |psm.annotationList|;
    if a <= b && a <= c then a else if b <= c then b else c
  }

  /** A PSM none of whose zipped annotations makes the source panic. */
  predicate Decodable(psm: MspPsm) {
    ZipLen(psm) <= |psm.annotationList|
    && forall k :: 0 <= k < ZipLen(psm) ==> AnnotationDecodable(psm.annotationList[k])
  }

  /** The peak at position `k` of the zipped lists. */
  function PeakOf(psm: MspPsm, k: nat, fs: FloatSyntax): Result<MspPeak, PsmError>
    requires Decodable(psm) && k < ZipLen(psm)
  {
    var annotation := psm.annotationList[k];
    match AnnotationsOf(annotation, fs)
    case Err(e) => Err(e)
    case Ok(annotations) =>
      CreateMspPeak(k, psm.data.mzList[k], psm.data.intensityList[k], annotations,
                    PartOf(annotation, 1), PartOf(annotation, 2), fs)
  }

  function PeaksFrom(psm: MspPsm, k: nat, fs: FloatSyntax): Result<seq<MspPeak>, PsmError>
    requires Decodable(psm) && k <= ZipLen(psm)
    decreases ZipLen(psm) - k
  {
    if k == ZipLen(psm) then Ok([])
    else
      match PeakOf(psm, k, fs)
      case Err(e) => Err(e)
      case Ok(p) => Prepend([p], PeaksFrom(psm, k + 1, fs))
  }

  /**
    `to_parsed_psm` as a function: the name must hold a '/'; the text before it is
    the sequence and the text up to the next '/' the charge. `massToMz` stands for
    `mzcore::ms::utils::mass_to_mz`.
   */
  function ParsedPsmOf(psm: MspPsm, fs: FloatSyntax, massToMz: (real, int) -> real): Result<MspParsedPsm, PsmError>
    requires Decodable(psm)
  {
    var nameParts := Split(psm.header.name, '/');
    if |nameParts| < 2 then Err(NameWithoutSlash)
    else
      match ParseI8(nameParts[1])
      case None => Err(ChargeNotInteger)
      case Some(charge) =>
        match PeaksFrom(psm, 0, fs)
        case Err(e) => Err(e)
        case Ok(peaks) =>
          Ok(MspParsedPsm(psm.header.comment, nameParts[0], psm.header.mw,
                          massToMz(psm.header.mw, charge), charge, peaks))
  }

  // ---------------------------------------------------------------------------
  // Decoding: the source's loops

  /** The body of the inner `for` loop: one tag, scanned with a character iterator at `pos`. */
  method DecodeTag(tag: string, fs: FloatSyntax) returns (r: Result<MspPeakAnnotation, PsmError>)
    ensures r == TagOf(tag, fs)
  {
    var parts := Split(tag, '/');
    var mzError: Option<real> := None;
    var before := tag;
    if |parts| >= 2 {
      var e := fs.parse(parts[1]);
      if e.None? {
        return Err(MzErrorNotNumber);
      }
      mzError := Some(e.value);
      before := parts[0];
    }
    if !HasAsciiDigit(before) {
      return Ok(Sequence(MspSeqAnnotation(before, mzError)));
    }
    var containsDash := '-' in before;
    var containsCircumflex := '^' in before;
    var ionType := before[0];
    var pos := 1;
    var indexText;
    indexText, pos := TakeDigitRun(before, pos);
    TakeDigitsShape(before, 1);
    var neutralLoss: Option<nat> := None;
    var charge: Option<int> := None;
    if containsDash {
      var lossText;
      var p2;
      lossText, p2 := TakeDigitRun(before, pos);
      TakeDigitsShape(before, pos);
      pos := p2;
      if |lossText| == 0 {
        return Err(NeutralLossNotNumber);
      }
      neutralLoss := Some(DigitsValue(lossText));
      if containsCircumflex {
        var chargeText;
        chargeText, pos := TakeDigitRun(before, pos);
        var z := ParseI8(chargeText);
        if z.None? {
          return Err(FragmentChargeNotInteger);
        }
        charge := Some(z.value);
      }
    } else if containsCircumflex {
      var chargeText;
      chargeText, pos := TakeDigitRun(before, pos);
      var z := ParseI8(chargeText);
      if z.None? {
        return Err(FragmentChargeNotInteger);
      }
      charge := Some(z.value);
    } else if pos < |before| {
      return Err(TrailingCharacters);
    }
    var index := ParseU16(indexText);
    if index.None? {
      return Err(FragmentIndexNotInteger);
    }
    r := Ok(Fragment(MspFragAnnotation(ionType, index.value, neutralLoss, charge, mzError)));
  }

  /** The inner `for` loop over the comma-separated tags of the first whitespace part. */
  method DecodeMatched(firstPart: string, fs: FloatSyntax) returns (r: Result<seq<MspPeakAnnotation>, PsmError>)
    ensures r == MatchedOf(firstPart, fs)
  {
    var tags := Split(firstPart, ',');
    var matched: seq<MspPeakAnnotation> := [];
    var k := 0;
    PrependNothing(TagsFrom(tags, 0, fs));
    while k < |tags|
      invariant 0 <= k <= |tags|
      invariant TagsFrom(tags, 0, fs) == Prepend(matched, TagsFrom(tags, k, fs))
    {
      var a := DecodeTag(tags[k], fs);
      if a.Err? {
        return Err(a.error);
      }
      PrependTwice(matched, [a.value], TagsFrom(tags, k + 1, fs));
      matched := matched + [a.value];
      k := k + 1;
    }
    r := Ok(matched);
    assert matched + [] == matched;
  }

  /** `MspPsm::to_parsed_psm`: the outer `for` loop over the zipped peak lists. */
  method ToParsedPsm(psm: MspPsm, fs: FloatSyntax, massToMz: (real, int) -> real)
    returns (r: Result<MspParsedPsm, PsmError>)
    requires Decodable(psm)
    ensures r == ParsedPsmOf(psm, fs, massToMz)
  {
    var nameParts := Split(psm.header.name, '/');
    if |nameParts| < 2 {
      return Err(NameWithoutSlash);
    }
    var charge := ParseI8(nameParts[1]);
    if charge.None? {
      return Err(ChargeNotInteger);
    }
    var peaks: seq<MspPeak> := [];
    var peakIdx := 0;
    var n := ZipLen(psm);
    PrependNothing(PeaksFrom(psm, 0, fs));
    while peakIdx < n
      invariant 0 <= peakIdx <= n
      invariant PeaksFrom(psm, 0, fs) == Prepend(peaks, PeaksFrom(psm, peakIdx, fs))
    {
      var annotation := psm.annotationList[peakIdx];
      var peakAnnotations: seq<MspPeakAnnotation> := [];
      if !StartsWith(annotation, "?") {
        var matched := DecodeMatched(Words(annotation)[0], fs);
        if matched.Err? {
          return Err(matched.error);
        }
        peakAnnotations := matched.value;
      }
      var peak := CreateMspPeak(peakIdx, psm.data.mzList[peakIdx], psm.data.intensityList[peakIdx],
                                peakAnnotations, PartOf(annotation, 1), PartOf(annotation, 2), fs);
      if peak.Err? {
        return Err(peak.error);
      }
      PrependTwice(peaks, [peak.value], PeaksFrom(psm, peakIdx + 1, fs));
      peaks := peaks + [peak.value];
      peakIdx := peakIdx + 1;
    }
    assert peaks + [] == peaks;
    r := Ok(MspParsedPsm(psm.header.comment, nameParts[0], psm.header.mw,
                         massToMz(psm.header.mw, charge.value), charge.value, peaks));
  }

  // ---------------------------------------------------------------------------
  // Encoding (`to_psm`)

  function ErrorSuffix(mzError: Option<real>, fs: FloatSyntax): string {
    if mzError.Some? then "/" + fs.show(mzError.value) else ""
  }

  /** A fragment is written as `{ion}{idx}[-{nl}][^{z}][/{err}]`, a sequence as `{seq}[/{err}]`. */
  function FragmentBody(f: MspFragAnnotation): string {
    [f.ionType] + NatToString(f.fragIndex)
    + (if f.neutralLoss.Some? then "-" + NatToString(f.neutralLoss.value) else "")
    + (if f.charge.Some? then "^" + IntToString(f.charge.value) else "")
  }

  function EncodeTag(a: MspPeakAnnotation, fs: FloatSyntax): string {
    match a
    case Fragment(f) => FragmentBody(f) + ErrorSuffix(f.mzError, fs)
    case Sequence(s) => s.sequence + ErrorSuffix(s.mzError, fs)
  }

  function EncodeTags(annotations: seq<MspPeakAnnotation>, fs: FloatSyntax): (r: seq<string>)
    ensures |r| == |annotations|
    ensures forall k :: 0 <= k < |r| ==> r[k] == EncodeTag(annotations[k], fs)
    decreases |annotations|
  {
    if |annotations| == 0 then [] else [EncodeTag(annotations[0], fs)] + EncodeTags(annotations[1..], fs)
  }

  /** The annotation text of a peak: `?` or the tags joined by ',', then ` {n}/{d} {v}` when the triple is present. */
  function EncodeAnnotation(p: MspPeak, fs: FloatSyntax): string {
    var first := MatchedText(p.annotations, fs);
    if p.unknown.Some? then first + " " + UnknownText(p.unknown.value, fs) else first
  }

  function MatchedText(annotations: seq<MspPeakAnnotation>, fs: FloatSyntax): string {
    if |annotations| == 0 then "?" else Join(EncodeTags(annotations, fs), ",")
  }

  function UnknownText(u: MspPeakUnknownData, fs: FloatSyntax): string {
    NatToString(u.numerator) + "/" + NatToString(u.denominator) + " " + fs.show(u.value)
  }

  function EncodeAnnotations(peaks: seq<MspPeak>, fs: FloatSyntax): (r: seq<string>)
    ensures |r| == |peaks|
    ensures forall k :: 0 <= k < |r| ==> r[k] == EncodeAnnotation(peaks[k], fs)
    decreases |peaks|
  {
    if |peaks| == 0 then [] else [EncodeAnnotation(peaks[0], fs)] + EncodeAnnotations(peaks[1..], fs)
  }

  function PeakMzs(peaks: seq<MspPeak>): (r: seq<real>)
    ensures |r| == |peaks| && forall k :: 0 <= k < |r| ==> r[k] == peaks[k].peakMz
    decreases |peaks|
  {
    if |peaks| == 0 then [] else [peaks[0].peakMz] + PeakMzs(peaks[1..])
  }

  function PeakIntensities(peaks: seq<MspPeak>): (r: seq<real>)
    ensures |r| == |peaks| && forall k :: 0 <= k < |r| ==> r[k] == peaks[k].peakIntensity
    decreases |peaks|
  {
    if |peaks| == 0 then [] else [peaks[0].peakIntensity] + PeakIntensities(peaks[1..])
  }

  /** `MspParsedPsm::to_psm` (it never fails): the name is `sequence/charge` and `Num peaks` the number of peaks. */
  function ToPsm(p: MspParsedPsm, fs: FloatSyntax): (r: MspPsm)
    ensures r.header.name == p.sequence + "/" + IntToString(p.charge)
    ensures r.header.numPeaks == |p.peaks| && r.header.mw == p.mass && r.header.comment == p.comment
    ensures ZipLen(r) == |p.peaks| && |r.annotationList| == |p.peaks|
    ensures forall k :: 0 <= k < |p.peaks| ==>
              r.data.mzList[k] == p.peaks[k].peakMz && r.data.intensityList[k] == p.peaks[k].peakIntensity
              && r.annotationList[k] == EncodeAnnotation(p.peaks[k], fs)
  {
    MspPsm(MspPsmHeader(p.sequence + "/" + IntToString(p.charge), p.mass, p.comment, |p.peaks|),
           SpectrumData(PeakMzs(p.peaks), PeakIntensities(p.peaks)),
           EncodeAnnotations(p.peaks, fs))
  }
}
