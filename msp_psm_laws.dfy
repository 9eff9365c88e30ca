/**
  What `to_parsed_psm` promises about its result, the annotation examples of the
  source, and the round trip: decoding the PSM that `to_psm` writes gives the
  parsed PSM back.
 */
module MspPsmLaws {
  import opened Base
  import opened Text
  import opened Decimal
  import opened Floats
  import opened MspPsmCodec

  // ---------------------------------------------------------------------------
  // Name, charge and peaks

  /**
    A name without '/' is refused; otherwise the sequence is the text before the
    first '/', the charge the `i8` between the first and second '/', and mass,
    comment and peaks come through unchanged.
   */
  lemma ParsedPsmFields(psm: MspPsm, fs: FloatSyntax, massToMz: (real, int) -> real)
    requires Decodable(psm)
    ensures '/' !in psm.header.name ==> ParsedPsmOf(psm, fs, massToMz) == Err(NameWithoutSlash)
    ensures ParsedPsmOf(psm, fs, massToMz).Ok? ==>
              var r := ParsedPsmOf(psm, fs, massToMz).value;
              var parts := Split(psm.header.name, '/');
              |parts| >= 2 && r.sequence == parts[0] && '/' !in r.sequence
              && ParseI8(parts[1]) == Some(r.charge)
              && r.mass == psm.header.mw && r.comment == psm.header.comment
              && r.mz == massToMz(psm.header.mw, r.charge)
              && PeaksFrom(psm, 0, fs) == Ok(r.peaks)
  {
    if '/' !in psm.header.name {
      SplitNoSeparator(psm.header.name, '/');
    }
    SplitPiecesFree(psm.header.name, '/');
  }

  /** The peak at position `k` has index `k` and the m/z and intensity at `k`. */
  lemma PeakOfShape(psm: MspPsm, k: nat, fs: FloatSyntax)
    requires Decodable(psm) && k < ZipLen(psm)
    ensures PeakOf(psm, k, fs).Ok? ==>
              var p := PeakOf(psm, k, fs).value;
              p.peakIndex == k && p.peakMz == psm.data.mzList[k] && p.peakIntensity == psm.data.intensityList[k]
  {
  }

  /** The peaks from position `k` are the peaks at `k`, `k + 1`, … in order. */
  lemma PeaksFromOk(psm: MspPsm, k: nat, fs: FloatSyntax)
    requires Decodable(psm) && k < ZipLen(psm) && PeaksFrom(psm, k, fs).Ok?
    ensures PeakOf(psm, k, fs).Ok? && PeaksFrom(psm, k + 1, fs).Ok?
    ensures PeaksFrom(psm, k, fs).value == [PeakOf(psm, k, fs).value] + PeaksFrom(psm, k + 1, fs).value
  {
  }

  /** Decoding from position `k` gives one peak per remaining zipped position. */
  lemma {:induction false} PeaksFromLength(psm: MspPsm, k: nat, fs: FloatSyntax)
    requires Decodable(psm) && k <= ZipLen(psm) && PeaksFrom(psm, k, fs).Ok?
    ensures |PeaksFrom(psm, k, fs).value| == ZipLen(psm) - k
    decreases ZipLen(psm) - k
  {
    if k < ZipLen(psm) {
      PeaksFromOk(psm, k, fs);
      PeaksFromLength(psm, k + 1, fs);
    }
  }

  /** The peak that decoding from position `k` gives for position `n` is the one decoded at `n`. */
  lemma {:induction false} PeakAt(psm: MspPsm, k: nat, n: nat, fs: FloatSyntax)
    requires Decodable(psm) && k <= n < ZipLen(psm) && PeaksFrom(psm, k, fs).Ok?
    ensures n - k < |PeaksFrom(psm, k, fs).value| && Ok(PeaksFrom(psm, k, fs).value[n - k]) == PeakOf(psm, n, fs)
    decreases n - k
  {
    PeaksFromOk(psm, k, fs);
    if k < n {
      PeakAt(psm, k + 1, n, fs);
    }
  }

  /** The peaks decoded from position `k` sit at positions `k`, `k + 1`, … */
  lemma PeaksFromAt(psm: MspPsm, k: nat, fs: FloatSyntax, v: seq<MspPeak>)
    requires Decodable(psm) && k <= ZipLen(psm) && PeaksFrom(psm, k, fs) == Ok(v)
    ensures |v| == ZipLen(psm) - k && forall n :: k <= n < ZipLen(psm) ==> Ok(v[n - k]) == PeakOf(psm, n, fs)
  {
    PeaksFromLength(psm, k, fs);
    forall n | k <= n < ZipLen(psm) ensures Ok(v[n - k]) == PeakOf(psm, n, fs) {
      PeakAt(psm, k, n, fs);
    }
  }

  /**
    One peak per position of the zipped lists, in order: `peakIndex` counts from
    0 and the m/z and intensity are copied unchanged.
   */
  lemma PeaksFromShape(psm: MspPsm, k: nat, fs: FloatSyntax)
    requires Decodable(psm) && k <= ZipLen(psm)
    ensures PeaksFrom(psm, k, fs).Ok? ==>
              var v := PeaksFrom(psm, k, fs).value;
              |v| == ZipLen(psm) - k
              && forall j :: 0 <= j < |v| ==>
                   v[j].peakIndex == k + j && v[j].peakMz == psm.data.mzList[k + j]
                   && v[j].peakIntensity == psm.data.intensityList[k + j]
                   && Ok(v[j]) == PeakOf(psm, k + j, fs)
  {
    if PeaksFrom(psm, k, fs).Ok? {
      var v := PeaksFrom(psm, k, fs).value;
      PeaksFromAt(psm, k, fs, v);
      forall j | 0 <= j < |v|
        ensures v[j].peakIndex == k + j && v[j].peakMz == psm.data.mzList[k + j]
                && v[j].peakIntensity == psm.data.intensityList[k + j]
                && Ok(v[j]) == PeakOf(psm, k + j, fs)
      {
        assert (k + j) - k == j;
        PeakOfShape(psm, k + j, fs);
      }
    }
  }

  /** Every peak of a decoded PSM, with the same shape as above from position 0. */
  lemma PeaksShape(psm: MspPsm, fs: FloatSyntax, massToMz: (real, int) -> real)
    requires Decodable(psm)
    ensures ParsedPsmOf(psm, fs, massToMz).Ok? ==>
              var peaks := ParsedPsmOf(psm, fs, massToMz).value.peaks;
              |peaks| == ZipLen(psm)
              && forall k :: 0 <= k < |peaks| ==>
                   peaks[k].peakIndex == k && peaks[k].peakMz == psm.data.mzList[k]
                   && peaks[k].peakIntensity == psm.data.intensityList[k]
  {
    ParsedPsmFields(psm, fs, massToMz);
    PeaksFromShape(psm, 0, fs);
  }

  /** An annotation starting with '?' gives a peak without annotations. */
  lemma QuestionMarkPeak(psm: MspPsm, k: nat, fs: FloatSyntax)
    requires Decodable(psm) && k < ZipLen(psm) && StartsWith(psm.annotationList[k], "?")
    ensures PeakOf(psm, k, fs).Ok? ==> PeakOf(psm, k, fs).value.annotations == []
  {
  }

  /** The comma-separated tags decode one annotation each, in order, and decoding fails exactly when one tag fails. */
  lemma {:induction false} TagsFromInOrder(tags: seq<string>, k: nat, fs: FloatSyntax)
    requires k <= |tags|
    ensures TagsFrom(tags, k, fs).Ok? <==> forall j :: k <= j < |tags| ==> TagOf(tags[j], fs).Ok?
    ensures TagsFrom(tags, k, fs).Ok? ==>
              var v := TagsFrom(tags, k, fs).value;
              |v| == |tags| - k && forall j :: 0 <= j < |v| ==> TagOf(tags[k + j], fs) == Ok(v[j])
    decreases |tags| - k
  {
    if k < |tags| {
      TagsFromInOrder(tags, k + 1, fs);
      if TagsFrom(tags, k, fs).Ok? {
        var v := TagsFrom(tags, k, fs).value;
        var rest := TagsFrom(tags, k + 1, fs).value;
        assert v == [TagOf(tags[k], fs).value] + rest;
        forall j | 0 <= j < |v| ensures TagOf(tags[k + j], fs) == Ok(v[j]) {
          if j > 0 {
            assert v[j] == rest[j - 1];
          }
        }
      }
    }
  }

  // ---------------------------------------------------------------------------
  // The annotation grammar on examples

  /** A tag `body/t` whose error text parses: the body decoded with that error. */
  lemma SlashTag(body: string, t: string, fs: FloatSyntax, e: real)
    requires '/' !in body && '/' !in t && fs.parse(t) == Some(e)
    ensures TagOf(body + "/" + t, fs) == TagBodyOf(body, Some(e))
  {
    SplitAtSlash(body, t);
  }

  /**
    The fragment example of the source, `y4-17^2/-0.02`: ion `y`, index 4,
    neutral loss 17, charge 2, error -0.02.
   */
  lemma FragmentExample(fs: FloatSyntax, e: real)
    requires fs.parse("-0.02") == Some(e)
    ensures TagOf("y4-17^2" + "/" + "-0.02", fs) == Ok(Fragment(MspFragAnnotation('y', 4, Some(17), Some(2), Some(e))))
  {
    FragmentExampleBody(e);
    SlashTag("y4-17^2", "-0.02", fs, e);
  }

  lemma FragmentExampleBody(e: real)
    ensures TagBodyOf("y4-17^2", Some(e)) == Ok(Fragment(MspFragAnnotation('y', 4, Some(17), Some(2), Some(e))))
  {
    assert "y4-17^2" == ['y'] + "4" + ("-" + "17") + ("^" + "2");
    assert DigitsValue("4") == 4 && DigitsValue("17") == 17 && DigitsValue("2") == 2;
    ModsLossCharge('y', "4", "17", "2");
    FragmentTagBody("y4-17^2", "4", 3, (Some(17), Some(2)), 4, Some(e));
  }

  /** The sequence example of the source: `IKC` with error 0.12. */
  lemma SequenceExample(fs: FloatSyntax, e: real)
    requires fs.parse("0.12") == Some(e)
    ensures TagOf("IKC/0.12", fs) == Ok(Sequence(MspSeqAnnotation("IKC", Some(e))))
  {
    assert !HasAsciiDigit("IKC");
    SlashTag("IKC", "0.12", fs, e);
    assert "IKC/0.12" == "IKC" + "/" + "0.12";
  }

  /** `take_while` swallows the character that ends the index, so one stray character after the index is accepted. */
  lemma SwallowedCharacter(fs: FloatSyntax)
    ensures TagOf("y" + "4" + "a", fs) == Ok(Fragment(MspFragAnnotation('y', 4, None, None, None)))
  {
    var tag := "y" + "4" + "a";
    NoErrorSuffix(tag, fs);
    assert IsAsciiDigit(tag[1]) && '-' !in tag && '^' !in tag;
    TakeDigitsOf("y", "4", "a");
    assert DigitsValue("4") == 4;
    FragmentTagBody(tag, "4", 3, (None, None), 4, None);
  }

  /** A second character after the index, with neither '-' nor '^' in the tag, is refused. */
  lemma TrailingCharacter(fs: FloatSyntax)
    ensures TagOf("y" + "4" + "ab", fs) == Err(TrailingCharacters)
  {
    var tag := "y" + "4" + "ab";
    NoErrorSuffix(tag, fs);
    assert IsAsciiDigit(tag[1]) && '-' !in tag && '^' !in tag;
    TakeDigitsOf("y", "4", "ab");
    assert HasAsciiDigit(tag);
  }

  /** An empty index digit run is an error, reported after the modifiers were read. */
  lemma EmptyIndexRun(fs: FloatSyntax)
    ensures TagOf("y" + "" + "-17", fs) == Err(FragmentIndexNotInteger)
  {
    var tag := "y" + "" + "-17";
    NoErrorSuffix(tag, fs);
    assert IsAsciiDigit(tag[2]) && tag[1] == '-' && '^' !in tag;
    TakeDigitsOf("y", "", "-17");
    TakeDigitsOf("y-", "17", "");
    assert tag == "y-" + "17" + "";
    IndexNotInteger(tag, 2);
  }

  /** A tag whose index run is empty and whose modifiers decode: the index is reported. */
  lemma IndexNotInteger(body: string, p: nat)
    requires HasAsciiDigit(body) && |body| >= 1
    requires TakeDigits(body, 1) == ("", p) && p <= |body| && ModifiersOf(body, p).Ok?
    ensures TagBodyOf(body, None) == Err(FragmentIndexNotInteger)
  {
  }

  /** An empty neutral-loss digit run is an error. */
  lemma EmptyLossRun(fs: FloatSyntax)
    ensures TagOf("y" + "4" + "-^2", fs) == Err(NeutralLossNotNumber)
  {
    var tag := "y" + "4" + "-^2";
    NoErrorSuffix(tag, fs);
    assert IsAsciiDigit(tag[1]) && tag[2] == '-';
    TakeDigitsOf("y", "4", "-^2");
    TakeDigitsOf("y4-", "", "^2");
    assert tag == "y4-" + "" + "^2";
    LossNotNumber(tag, 3);
  }

  /**
    A negative fragment charge, which `to_psm` writes as `^-2`, is read back as a
    failed neutral loss: the '-' of the sign counts as the neutral-loss marker.
   */
  lemma NegativeFragmentCharge(fs: FloatSyntax)
    ensures EncodeTag(Fragment(MspFragAnnotation('y', 4, None, Some(-2), None)), fs) == "y4^-2"
    ensures TagOf("y4^-2", fs) == Err(NeutralLossNotNumber)
  {
    NegativeChargeWritten(fs);
    NegativeChargeRead(fs);
    assert "y4^-2" == "y" + "4" + "^-2";
  }

  lemma NegativeChargeWritten(fs: FloatSyntax)
    ensures EncodeTag(Fragment(MspFragAnnotation('y', 4, None, Some(-2), None)), fs) == "y4^-2"
  {
    assert NatToString(4) == "4" && NatToString(2) == "2";
    assert IntToString(-2) == "-2";
    assert FragmentBody(MspFragAnnotation('y', 4, None, Some(-2), None)) == ['y'] + "4" + "" + ("^" + "-2");
  }

  lemma NegativeChargeRead(fs: FloatSyntax)
    ensures TagOf("y" + "4" + "^-2", fs) == Err(NeutralLossNotNumber)
  {
    var tag := "y" + "4" + "^-2";
    NoErrorSuffix(tag, fs);
    assert IsAsciiDigit(tag[1]) && tag[3] == '-';
    TakeDigitsOf("y", "4", "^-2");
    TakeDigitsOf("y4^", "", "-2");
    assert tag == "y4^" + "" + "-2";
    LossNotNumber(tag, 3);
  }

  /**
    The text `to_psm` writes for a fractional neutral loss of 17.5 with charge 2,
    `y4-17.5^2`, decodes without error to loss 17 and charge 5: the loss run stops
    at the '.' and swallows it, the charge run reads the `5` and swallows the
    '^', and the `2` is never looked at.
   */
  lemma DecimalLossMisread(fs: FloatSyntax)
    ensures TagOf("y" + "4" + "-17.5^2", fs) == Ok(Fragment(MspFragAnnotation('y', 4, Some(17), Some(5), None)))
  {
    NoErrorSuffix("y" + "4" + "-17.5^2", fs);
    DecimalLossBody();
  }

  lemma DecimalLossBody()
    ensures TagBodyOf("y" + "4" + "-17.5^2", None) == Ok(Fragment(MspFragAnnotation('y', 4, Some(17), Some(5), None)))
  {
    var tag := "y" + "4" + "-17.5^2";
    DecimalLossRuns();
    assert DigitsValue("17") == 17 && DigitsValue("5") == 5;
    ParseSignedOfDigits("5", I8_MIN, I8_MAX);
    LossThenCharge(tag, 3, "17", 6, "5");
    ParseUnsignedOfDigits("4", U16_MAX);
    assert IsAsciiDigit(tag[1]);
    FragmentTagBody(tag, "4", 3, (Some(17), Some(5)), 4, None);
  }

  lemma DecimalLossRuns()
    ensures var tag := "y" + "4" + "-17.5^2";
            TakeDigits(tag, 1) == ("4", 3) && TakeDigits(tag, 3) == ("17", 6) && TakeDigits(tag, 6).0 == "5"
            && '-' in tag && '^' in tag
  {
    var tag := "y" + "4" + "-17.5^2";
    assert tag[2] == '-' && tag[7] == '^';
    TakeDigitsOf("y", "4", "-17.5^2");
    assert tag == "y4-" + "17" + ".5^2";
    TakeDigitsOf("y4-", "17", ".5^2");
    assert tag == "y4-17." + "5" + "^2";
    TakeDigitsOf("y4-17.", "5", "^2");
  }

  /** A tag with a '-' whose loss run is empty: decoding reports the neutral loss. */
  lemma LossNotNumber(body: string, p: nat)
    requires |body| >= 2 && IsAsciiDigit(body[1]) && '-' in body
    requires TakeDigits(body, 1).1 == p && p <= |body| && TakeDigits(body, p).0 == ""
    ensures TagBodyOf(body, None) == Err(NeutralLossNotNumber)
  {
    assert HasAsciiDigit(body);
  }

  // ---------------------------------------------------------------------------
  // Round trip

  /** Text without ASCII whitespace and without ',': what a tag may hold. */
  predicate Clean(s: string) {
    forall i :: 0 <= i < |s| ==> !IsAsciiWhitespace(s[i]) && s[i] != ','
  }

  lemma CleanAppend(a: string, b: string)
    requires Clean(a) && Clean(b)
    ensures Clean(a + b)
  {
    assert forall i :: 0 <= i < |a + b| ==> (a + b)[i] == if i < |a| then a[i] else b[i - |a|];
  }

  lemma CleanDigits(s: string)
    requires AllDigits(s)
    ensures Clean(s)
  {
  }

  lemma CleanToken(s: string)
    requires Token(s)
    ensures Clean(s) && '/' !in s
  {
  }

  /** An annotation that `to_psm` writes in a form the decoder reads back. */
  predicate WellFormedAnnotation(a: MspPeakAnnotation) {
    match a
    case Fragment(f) =>
      !IsAsciiWhitespace(f.ionType) && f.ionType != ',' && f.ionType != '/' && f.ionType != '-'
      && f.ionType != '^' && f.ionType != '?'
      && f.fragIndex <= U16_MAX
      && (f.charge.Some? ==> 0 <= f.charge.value <= I8_MAX)
    case Sequence(s) =>
      IsWord(s.sequence) && !HasAsciiDigit(s.sequence) && ',' !in s.sequence && '/' !in s.sequence
      && s.sequence[0] != '?'
  }

  predicate WellFormedPeak(p: MspPeak, k: nat) {
    p.peakIndex == k
    && (forall j :: 0 <= j < |p.annotations| ==> WellFormedAnnotation(p.annotations[j]))
    && (p.unknown.Some? ==> p.unknown.value.numerator <= USIZE_MAX && p.unknown.value.denominator <= USIZE_MAX)
  }

  /**
    A parsed PSM that `to_psm` writes faithfully: the sequence has no '/', the
    charge is an `i8`, the m/z is the one derived from the mass and charge, and
    the peaks are numbered from 0.
   */
  predicate WellFormedParsedPsm(p: MspParsedPsm, massToMz: (real, int) -> real) {
    '/' !in p.sequence && I8_MIN <= p.charge <= I8_MAX && p.mz == massToMz(p.mass, p.charge)
    && forall k :: 0 <= k < |p.peaks| ==> WellFormedPeak(p.peaks[k], k)
  }

  /** A tag with one '/' splits into the text before it and the text after it. */
  lemma SplitAtSlash(body: string, t: string)
    requires '/' !in body && '/' !in t
    ensures Split(body + "/" + t, '/') == [body, t]
  {
    SplitNoSeparator(t, '/');
    SplitFirst(body, '/', t);
    assert body + "/" + t == body + ['/'] + t;
  }

  /** A tag without '/' has no error. */
  lemma NoErrorSuffix(tag: string, fs: FloatSyntax)
    requires '/' !in tag
    ensures TagOf(tag, fs) == TagBodyOf(tag, None)
  {
    SplitNoSeparator(tag, '/');
  }

  /** Splitting off the `/error` suffix gives the body and the error back. */
  lemma SplitOffError(body: string, e: Option<real>, fs: FloatSyntax)
    requires '/' !in body && WellBehaved(fs)
    ensures TagOf(body + ErrorSuffix(e, fs), fs) == TagBodyOf(body, e)
  {
    if e.Some? {
      var t := fs.show(e.value);
      ShowIsToken(fs, e.value);
      CleanToken(t);
      SplitAtSlash(body, t);
      assert body + ErrorSuffix(e, fs) == body + "/" + t;
    } else {
      assert body + ErrorSuffix(e, fs) == body;
      NoErrorSuffix(body, fs);
    }
  }

  /** The body of a written fragment, `{ion}{idx}[-{nl}][^{z}]`, decodes to the fragment. */
  lemma FragmentBodyRoundTrip(f: MspFragAnnotation)
    requires WellFormedAnnotation(Fragment(f))
    ensures Clean(FragmentBody(f)) && '/' !in FragmentBody(f) && FragmentBody(f)[0] == f.ionType
    ensures TagBodyOf(FragmentBody(f), f.mzError) == Ok(Fragment(f))
  {
    var idx := NatToString(f.fragIndex);
    var nls := if f.neutralLoss.Some? then NatToString(f.neutralLoss.value) else "";
    var cs := if f.charge.Some? then NatToString(f.charge.value) else "";
    var nlPart := if f.neutralLoss.Some? then "-" + nls else "";
    var chPart := if f.charge.Some? then "^" + cs else "";
    assert FragmentBody(f) == [f.ionType] + idx + nlPart + chPart;
    FragmentBodyClean(f.ionType, idx, nlPart, chPart, nls, cs);
    ParseUnsignedOfNatToString(f.fragIndex, U16_MAX);
    if f.neutralLoss.None? && f.charge.None? {
      DecodePlain(f, idx);
    } else if f.neutralLoss.None? {
      DecodeCharge(f, idx);
    } else if f.charge.None? {
      DecodeLoss(f, idx);
    } else {
      DecodeLossCharge(f, idx);
    }
  }

  lemma DecodePlain(f: MspFragAnnotation, idx: string)
    requires f.neutralLoss.None? && f.charge.None? && f.ionType != '-' && f.ionType != '^'
    requires idx == NatToString(f.fragIndex) && ParseU16(idx) == Some(f.fragIndex)
    ensures TagBodyOf(FragmentBody(f), f.mzError) == Ok(Fragment(f))
  {
    var body := [f.ionType] + idx;
    assert FragmentBody(f) == body;
    ModsPlain(f.ionType, idx);
    FragmentTagBody(body, idx, |body|, (f.neutralLoss, f.charge), f.fragIndex, f.mzError);
  }

  lemma DecodeCharge(f: MspFragAnnotation, idx: string)
    requires f.neutralLoss.None? && f.charge.Some? && 0 <= f.charge.value <= I8_MAX && f.ionType != '-' && f.ionType != '^'
    requires idx == NatToString(f.fragIndex) && ParseU16(idx) == Some(f.fragIndex)
    ensures TagBodyOf(FragmentBody(f), f.mzError) == Ok(Fragment(f))
  {
    var cs := NatToString(f.charge.value);
    ChargeBody(f, idx, cs);
    ChargeTag(f.ionType, idx, cs, f.fragIndex, f.mzError);
  }

  lemma ChargeBody(f: MspFragAnnotation, idx: string, cs: string)
    requires f.neutralLoss.None? && f.charge.Some? && 0 <= f.charge.value
    requires idx == NatToString(f.fragIndex) && cs == NatToString(f.charge.value)
    ensures FragmentBody(f) == [f.ionType] + idx + ("^" + cs)
    ensures |cs| > 0 && DigitsValue(cs) == f.charge.value
  {
    NatToStringValue(f.charge.value);
    assert IntToString(f.charge.value) == cs;
    var head := [f.ionType] + idx;
    assert head + "" == head;
  }

  lemma ChargeTag(ion: char, idx: string, cs: string, index: nat, e: Option<real>)
    requires AllDigits(idx) && AllDigits(cs) && |cs| > 0 && DigitsValue(cs) <= I8_MAX && ion != '-' && ion != '^'
    requires |idx| > 0 && ParseU16(idx) == Some(index)
    ensures TagBodyOf([ion] + idx + ("^" + cs), e)
         == Ok(Fragment(MspFragAnnotation(ion, index, None, Some(DigitsValue(cs) as int), e)))
  {
    var body := [ion] + idx + ("^" + cs);
    ModsCharge(ion, idx, cs);
    assert body[1] == idx[0];
    FragmentTagBody(body, idx, 2 + |idx|, (None, Some(DigitsValue(cs) as int)), index, e);
  }

  lemma DecodeLoss(f: MspFragAnnotation, idx: string)
    requires f.neutralLoss.Some? && f.charge.None? && f.ionType != '-' && f.ionType != '^'
    requires idx == NatToString(f.fragIndex) && ParseU16(idx) == Some(f.fragIndex)
    ensures TagBodyOf(FragmentBody(f), f.mzError) == Ok(Fragment(f))
  {
    var nls := NatToString(f.neutralLoss.value);
    NatToStringValue(f.neutralLoss.value);
    assert FragmentBody(f) == [f.ionType] + idx + ("-" + nls);
    LossTag(f.ionType, idx, nls, f.fragIndex, f.mzError);
  }

  lemma LossTag(ion: char, idx: string, nls: string, index: nat, e: Option<real>)
    requires AllDigits(idx) && AllDigits(nls) && |nls| > 0 && ion != '-' && ion != '^'
    requires |idx| > 0 && ParseU16(idx) == Some(index)
    ensures TagBodyOf([ion] + idx + ("-" + nls), e)
         == Ok(Fragment(MspFragAnnotation(ion, index, Some(DigitsValue(nls)), None, e)))
  {
    var body := [ion] + idx + ("-" + nls);
    ModsLoss(ion, idx, nls);
    assert body[1] == idx[0];
    FragmentTagBody(body, idx, 2 + |idx|, (Some(DigitsValue(nls)), None), index, e);
  }

  lemma DecodeLossCharge(f: MspFragAnnotation, idx: string)
    requires f.neutralLoss.Some? && f.charge.Some? && 0 <= f.charge.value <= I8_MAX && f.ionType != '-' && f.ionType != '^'
    requires idx == NatToString(f.fragIndex) && ParseU16(idx) == Some(f.fragIndex)
    ensures TagBodyOf(FragmentBody(f), f.mzError) == Ok(Fragment(f))
  {
    var nls := NatToString(f.neutralLoss.value);
    var cs := NatToString(f.charge.value);
    LossChargeBody(f, idx, nls, cs);
    LossChargeTag(f.ionType, idx, nls, cs, f.fragIndex, f.mzError);
  }

  lemma LossChargeTag(ion: char, idx: string, nls: string, cs: string, index: nat, e: Option<real>)
    requires AllDigits(idx) && AllDigits(nls) && |nls| > 0 && AllDigits(cs) && |cs| > 0
    requires DigitsValue(cs) <= I8_MAX && ion != '-' && ion != '^'
    requires |idx| > 0 && ParseU16(idx) == Some(index)
    ensures TagBodyOf([ion] + idx + ("-" + nls) + ("^" + cs), e)
         == Ok(Fragment(MspFragAnnotation(ion, index, Some(DigitsValue(nls)), Some(DigitsValue(cs) as int), e)))
  {
    var body := [ion] + idx + ("-" + nls) + ("^" + cs);
    ModsLossCharge(ion, idx, nls, cs);
    assert body[1] == idx[0];
    FragmentTagBody(body, idx, 2 + |idx|, (Some(DigitsValue(nls)), Some(DigitsValue(cs) as int)), index, e);
  }

  lemma LossChargeBody(f: MspFragAnnotation, idx: string, nls: string, cs: string)
    requires f.neutralLoss.Some? && f.charge.Some? && 0 <= f.charge.value
    requires idx == NatToString(f.fragIndex) && nls == NatToString(f.neutralLoss.value) && cs == NatToString(f.charge.value)
    ensures FragmentBody(f) == [f.ionType] + idx + ("-" + nls) + ("^" + cs)
    ensures |nls| > 0 && |cs| > 0 && DigitsValue(nls) == f.neutralLoss.value && DigitsValue(cs) == f.charge.value
    ensures |FragmentBody(f)| >= 2 && IsAsciiDigit(FragmentBody(f)[1])
  {
    NatToStringValue(f.neutralLoss.value);
    NatToStringValue(f.charge.value);
    assert IntToString(f.charge.value) == cs;
  }

  /** A tag body whose index run, modifiers and index parse succeed is that fragment. */
  lemma FragmentTagBody(body: string, idx: string, p: nat, mods: (Option<nat>, Option<int>), index: nat, e: Option<real>)
    requires |body| >= 2 && IsAsciiDigit(body[1])
    requires TakeDigits(body, 1) == (idx, p) && p <= |body| && ModifiersOf(body, p) == Ok(mods)
    requires ParseU16(idx) == Some(index)
    ensures TagBodyOf(body, e) == Ok(Fragment(MspFragAnnotation(body[0], index, mods.0, mods.1, e)))
  {
    assert HasAsciiDigit(body);
  }

  /** The characters of a written fragment body. */
  lemma FragmentBodyClean(ion: char, idx: string, nlPart: string, chPart: string, nls: string, cs: string)
    requires !IsAsciiWhitespace(ion) && ion != ',' && ion != '/'
    requires AllDigits(idx) && |idx| > 0 && AllDigits(nls) && AllDigits(cs)
    requires nlPart == "" || nlPart == "-" + nls
    requires chPart == "" || chPart == "^" + cs
    ensures var body := [ion] + idx + nlPart + chPart;
            Clean(body) && '/' !in body && body[0] == ion && body[1] == idx[0]
  {
    CleanDigits(idx);
    CleanDigits(nls);
    CleanDigits(cs);
    CleanAppend("-", nls);
    CleanAppend("^", cs);
    CleanAppend([ion], idx);
    CleanAppend([ion] + idx, nlPart);
    CleanAppend([ion] + idx + nlPart, chPart);
    NotInDigits(idx, '/');
    NotInDigits(nls, '/');
    NotInDigits(cs, '/');
  }

  /** `{ion}{idx}`: the index run reaches the end and nothing follows. */
  lemma ModsPlain(ion: char, idx: string)
    requires AllDigits(idx) && ion != '-' && ion != '^'
    ensures var body := [ion] + idx;
            TakeDigits(body, 1) == (idx, |body|) && ModifiersOf(body, |body|) == Ok((None, None))
  {
    var body := [ion] + idx;
    NotInDigits(idx, '-');
    NotInDigits(idx, '^');
    TakeDigitsOf([ion], idx, "");
    assert body == [ion] + idx + "";
  }

  /** `{ion}{idx}^{z}`: the '^' ends the index run and the charge run follows. */
  lemma ModsCharge(ion: char, idx: string, cs: string)
    requires AllDigits(idx) && AllDigits(cs) && |cs| > 0 && DigitsValue(cs) <= I8_MAX && ion != '-' && ion != '^'
    ensures var body := [ion] + idx + ("^" + cs);
            TakeDigits(body, 1) == (idx, 2 + |idx|) && ModifiersOf(body, 2 + |idx|) == Ok((None, Some(DigitsValue(cs) as int)))
  {
    var body := [ion] + idx + ("^" + cs);
    RunsOfCharge(body, ion, idx, cs);
    ParseSignedOfDigits(cs, I8_MIN, I8_MAX);
    OnlyCharge(body, 2 + |idx|, cs);
  }

  lemma RunsOfCharge(body: string, ion: char, idx: string, cs: string)
    requires AllDigits(idx) && AllDigits(cs) && ion != '-' && body == [ion] + idx + ("^" + cs)
    ensures TakeDigits(body, 1) == (idx, 2 + |idx|) && '-' !in body && '^' in body
    ensures 2 + |idx| <= |body| && TakeDigits(body, 2 + |idx|).0 == cs
  {
    NotInDigits(idx, '-');
    NotInDigits(cs, '-');
    assert body[1 + |idx|] == '^';
    TakeDigitsOf([ion], idx, "^" + cs);
    var pre := [ion] + idx + "^";
    assert body == pre + cs + "";
    TakeDigitsOf(pre, cs, "");
  }

  /** The modifiers when the tag has a '^' and no '-'. */
  lemma OnlyCharge(body: string, p: nat, cs: string)
    requires p <= |body| && '-' !in body && '^' in body
    requires TakeDigits(body, p).0 == cs && ParseI8(cs).Some?
    ensures ModifiersOf(body, p) == Ok((None, Some(ParseI8(cs).value)))
  {
  }

  /** `{ion}{idx}-{nl}`: the '-' ends the index run and the neutral-loss run follows. */
  lemma ModsLoss(ion: char, idx: string, nls: string)
    requires AllDigits(idx) && AllDigits(nls) && |nls| > 0 && ion != '-' && ion != '^'
    ensures var body := [ion] + idx + ("-" + nls);
            TakeDigits(body, 1) == (idx, 2 + |idx|) && ModifiersOf(body, 2 + |idx|) == Ok((Some(DigitsValue(nls)), None))
  {
    var body := [ion] + idx + ("-" + nls);
    RunsOfLoss(body, ion, idx, nls);
    OnlyLoss(body, 2 + |idx|, nls);
  }

  lemma RunsOfLoss(body: string, ion: char, idx: string, nls: string)
    requires AllDigits(idx) && AllDigits(nls) && ion != '^' && body == [ion] + idx + ("-" + nls)
    ensures TakeDigits(body, 1) == (idx, 2 + |idx|) && '-' in body && '^' !in body
    ensures 2 + |idx| <= |body| && TakeDigits(body, 2 + |idx|).0 == nls
  {
    NotInDigits(idx, '^');
    NotInDigits(nls, '^');
    assert body[1 + |idx|] == '-';
    TakeDigitsOf([ion], idx, "-" + nls);
    var pre := [ion] + idx + "-";
    assert body == pre + nls + "";
    TakeDigitsOf(pre, nls, "");
  }

  lemma OnlyLoss(body: string, p: nat, nls: string)
    requires p <= |body| && '-' in body && '^' !in body
    requires TakeDigits(body, p).0 == nls && |nls| > 0
    ensures ModifiersOf(body, p) == Ok((Some(DigitsValue(nls)), None))
  {
  }


  /** `{ion}{idx}-{nl}^{z}`: the '^' ends the neutral-loss run and the charge run follows. */
  lemma ModsLossCharge(ion: char, idx: string, nls: string, cs: string)
    requires AllDigits(idx) && AllDigits(nls) && |nls| > 0 && AllDigits(cs) && |cs| > 0
    requires DigitsValue(cs) <= I8_MAX && ion != '-' && ion != '^'
    ensures var body := [ion] + idx + ("-" + nls) + ("^" + cs);
            TakeDigits(body, 1) == (idx, 2 + |idx|)
            && ModifiersOf(body, 2 + |idx|) == Ok((Some(DigitsValue(nls)), Some(DigitsValue(cs) as int)))
  {
    var body := [ion] + idx + ("-" + nls) + ("^" + cs);
    IndexRunOfLossCharge(body, ion, idx, nls, cs);
    LossRunOfLossCharge(body, ion, idx, nls, cs);
    ChargeRunOfLossCharge(body, ion, idx, nls, cs);
    ParseSignedOfDigits(cs, I8_MIN, I8_MAX);
    var p: nat := 2 + |idx|;
    TakeDigitsShape(body, p);
    LossThenCharge(body, p, nls, TakeDigits(body, p).1, cs);
  }

  lemma IndexRunOfLossCharge(body: string, ion: char, idx: string, nls: string, cs: string)
    requires AllDigits(idx) && body == [ion] + idx + ("-" + nls) + ("^" + cs)
    ensures TakeDigits(body, 1) == (idx, 2 + |idx|) && '-' in body && '^' in body
  {
    assert body[1 + |idx|] == '-';
    assert body[2 + |idx| + |nls|] == '^';
    assert body == [ion] + idx + ("-" + nls + ("^" + cs));
    TakeDigitsOf([ion], idx, "-" + nls + ("^" + cs));
  }

  lemma LossRunOfLossCharge(body: string, ion: char, idx: string, nls: string, cs: string)
    requires AllDigits(nls) && body == [ion] + idx + ("-" + nls) + ("^" + cs)
    ensures TakeDigits(body, 2 + |idx|) == (nls, 3 + |idx| + |nls|)
  {
    var pre := [ion] + idx + "-";
    assert body == pre + nls + ("^" + cs);
    TakeDigitsOf(pre, nls, "^" + cs);
  }

  lemma ChargeRunOfLossCharge(body: string, ion: char, idx: string, nls: string, cs: string)
    requires AllDigits(cs) && body == [ion] + idx + ("-" + nls) + ("^" + cs)
    ensures 3 + |idx| + |nls| <= |body| && TakeDigits(body, 3 + |idx| + |nls|).0 == cs
  {
    var pre2 := [ion] + idx + "-" + nls + "^";
    assert body == pre2 + cs + "";
    TakeDigitsOf(pre2, cs, "");
  }

  /** The modifiers when the tag has both '-' and '^' and both runs are read. */
  lemma LossThenCharge(body: string, p: nat, nls: string, p2: nat, cs: string)
    requires p <= |body| && '-' in body && '^' in body
    requires TakeDigits(body, p) == (nls, p2) && |nls| > 0 && p2 <= |body|
    requires TakeDigits(body, p2).0 == cs && ParseI8(cs).Some?
    ensures ModifiersOf(body, p) == Ok((Some(DigitsValue(nls)), Some(ParseI8(cs).value)))
  {
  }


  /** A written tag is a clean word whose first character is not '?', and it decodes to the annotation. */
  lemma TagRoundTrip(a: MspPeakAnnotation, fs: FloatSyntax)
    requires WellBehaved(fs) && WellFormedAnnotation(a)
    ensures IsWord(EncodeTag(a, fs)) && Clean(EncodeTag(a, fs)) && EncodeTag(a, fs)[0] != '?'
    ensures TagOf(EncodeTag(a, fs), fs) == Ok(a)
  {
    var e := match a case Fragment(f) => f.mzError case Sequence(s) => s.mzError;
    var suffix := ErrorSuffix(e, fs);
    if e.Some? {
      ShowIsToken(fs, e.value);
      CleanToken(fs.show(e.value));
      CleanAppend("/", fs.show(e.value));
    }
    assert Clean(suffix);
    match a {
      case Fragment(f) =>
        FragmentBodyRoundTrip(f);
        CleanAppend(FragmentBody(f), suffix);
        SplitOffError(FragmentBody(f), e, fs);
      case Sequence(s) =>
        CleanAppend(s.sequence, suffix);
        SplitOffError(s.sequence, e, fs);
    }
  }

  /** Tags that decode one by one to a list decode together to it. */
  lemma {:induction false} TagsFromDecoded(tags: seq<string>, annotations: seq<MspPeakAnnotation>, k: nat, fs: FloatSyntax)
    requires k <= |tags| == |annotations|
    requires forall j :: k <= j < |tags| ==> TagOf(tags[j], fs) == Ok(annotations[j])
    ensures TagsFrom(tags, k, fs) == Ok(annotations[k..])
    decreases |tags| - k
  {
    if k < |tags| {
      TagsFromDecoded(tags, annotations, k + 1, fs);
      assert annotations[k..] == [annotations[k]] + annotations[k + 1..];
    }
  }

  lemma TagsRoundTrip(annotations: seq<MspPeakAnnotation>, k: nat, fs: FloatSyntax)
    requires WellBehaved(fs) && k <= |annotations|
    requires forall j :: 0 <= j < |annotations| ==> WellFormedAnnotation(annotations[j])
    ensures TagsFrom(EncodeTags(annotations, fs), k, fs) == Ok(annotations[k..])
  {
    var tags := EncodeTags(annotations, fs);
    forall j | k <= j < |tags| ensures TagOf(tags[j], fs) == Ok(annotations[j]) {
      TagRoundTrip(annotations[j], fs);
    }
    TagsFromDecoded(tags, annotations, k, fs);
  }

  /** The first whitespace part of a written annotation: `?`, or the tags joined by ','. */
  lemma FirstPartRoundTrip(annotations: seq<MspPeakAnnotation>, fs: FloatSyntax)
    requires WellBehaved(fs)
    requires forall j :: 0 <= j < |annotations| ==> WellFormedAnnotation(annotations[j])
    ensures var first := MatchedText(annotations, fs);
            IsWord(first) && (first[0] == '?' <==> |annotations| == 0)
            && (|annotations| > 0 ==> MatchedOf(first, fs) == Ok(annotations))
  {
    if |annotations| > 0 {
      var tags := EncodeTags(annotations, fs);
      forall j | 0 <= j < |tags| ensures IsWord(tags[j]) && ',' !in tags[j] {
        TagRoundTrip(annotations[j], fs);
      }
      JoinOfWords(tags, ",");
      TagRoundTrip(annotations[0], fs);
      SplitJoin(tags, ',');
      TagsRoundTrip(annotations, 0, fs);
      assert annotations[0..] == annotations;
    }
  }

  /** `numerator/denominator` holds no whitespace or comma and splits at its '/' back into the two numbers. */
  lemma FractionRoundTrip(numerator: nat, denominator: nat)
    requires numerator <= USIZE_MAX && denominator <= USIZE_MAX
    ensures var nd := NatToString(numerator) + "/" + NatToString(denominator);
            Clean(nd) && |nd| > 0
            && Split(nd, '/') == [NatToString(numerator), NatToString(denominator)]
            && ParseUsize(NatToString(numerator)) == Some(numerator)
            && ParseUsize(NatToString(denominator)) == Some(denominator)
  {
    var ns := NatToString(numerator);
    var ds := NatToString(denominator);
    FractionSplit(ns, ds);
    FractionClean(ns, ds);
    ParseUnsignedOfNatToString(numerator, USIZE_MAX);
    ParseUnsignedOfNatToString(denominator, USIZE_MAX);
  }

  /** Two digit runs joined by '/' split back into the two runs. */
  lemma FractionSplit(ns: string, ds: string)
    requires AllDigits(ns) && AllDigits(ds)
    ensures Split(ns + "/" + ds, '/') == [ns, ds]
  {
    NotInDigits(ns, '/');
    NotInDigits(ds, '/');
    SplitNoSeparator(ds, '/');
    SplitFirst(ns, '/', ds);
    assert ns + "/" + ds == ns + ['/'] + ds;
  }

  /** Two digit runs joined by '/' hold no whitespace or comma. */
  lemma FractionClean(ns: string, ds: string)
    requires AllDigits(ns) && AllDigits(ds)
    ensures Clean(ns + "/" + ds)
  {
    CleanDigits(ns);
    CleanDigits(ds);
    CleanAppend(ns, "/");
    CleanAppend(ns + "/", ds);
  }

  /** The written `numerator/denominator value` part is two words, and the first splits back into the two numbers. */
  lemma UnknownRoundTrip(u: MspPeakUnknownData, fs: FloatSyntax)
    requires WellBehaved(fs) && u.numerator <= USIZE_MAX && u.denominator <= USIZE_MAX
    ensures var nd := NatToString(u.numerator) + "/" + NatToString(u.denominator);
            Words(UnknownText(u, fs)) == [nd, fs.show(u.value)]
            && Split(nd, '/') == [NatToString(u.numerator), NatToString(u.denominator)]
            && ParseUsize(NatToString(u.numerator)) == Some(u.numerator)
            && ParseUsize(NatToString(u.denominator)) == Some(u.denominator)
            && fs.parse(fs.show(u.value)) == Some(u.value)
  {
    var nd := NatToString(u.numerator) + "/" + NatToString(u.denominator);
    FractionRoundTrip(u.numerator, u.denominator);
    ShowIsToken(fs, u.value);
    TokenIsWord(fs.show(u.value));
    WordsCons(nd, fs.show(u.value));
    WordsOfWord(fs.show(u.value));
  }

  /** A first part followed by a written unknown triple is three words. */
  lemma WordsOfUnknown(first: string, u: MspPeakUnknownData, fs: FloatSyntax, a: string)
    requires WellBehaved(fs) && IsWord(first)
    requires u.numerator <= USIZE_MAX && u.denominator <= USIZE_MAX
    requires a == first + " " + UnknownText(u, fs)
    ensures Words(a) == [first, NatToString(u.numerator) + "/" + NatToString(u.denominator), fs.show(u.value)]
    ensures a[0] == first[0]
  {
    UnknownRoundTrip(u, fs);
    WordsCons(first, UnknownText(u, fs));
  }

  /** The whitespace parts of a written annotation. */
  lemma AnnotationWords(p: MspPeak, fs: FloatSyntax)
    requires WellBehaved(fs)
    requires IsWord(MatchedText(p.annotations, fs))
    requires p.unknown.Some? ==> p.unknown.value.numerator <= USIZE_MAX && p.unknown.value.denominator <= USIZE_MAX
    ensures var first := MatchedText(p.annotations, fs);
            var a := EncodeAnnotation(p, fs);
            |Words(a)| >= 1 && Words(a)[0] == first && a[0] == first[0]
            && (p.unknown.None? ==> PartOf(a, 1) == None)
            && (p.unknown.Some? ==>
                  var u := p.unknown.value;
                  |Words(a)| == 3
                  && PartOf(a, 1) == Some(NatToString(u.numerator) + "/" + NatToString(u.denominator))
                  && PartOf(a, 2) == Some(fs.show(u.value)))
  {
    var first := MatchedText(p.annotations, fs);
    if p.unknown.Some? {
      WordsOfUnknown(first, p.unknown.value, fs, EncodeAnnotation(p, fs));
    } else {
      WordsOfWord(first);
    }
  }

  /** An annotation starts with '?' exactly when its first character is '?'. */
  lemma QuestionPrefix(s: string)
    ensures StartsWith(s, "?") <==> |s| > 0 && s[0] == '?'
  {
    if |s| > 0 {
      assert s[..1] == [s[0]];
    }
  }

  /** A written annotation does not make the decoder panic. */
  lemma WrittenDecodable(p: MspPeak, k: nat, fs: FloatSyntax)
    requires WellBehaved(fs) && WellFormedPeak(p, k)
    ensures AnnotationDecodable(EncodeAnnotation(p, fs))
  {
    FirstPartRoundTrip(p.annotations, fs);
    AnnotationWords(p, fs);
    if p.unknown.Some? {
      UnknownRoundTrip(p.unknown.value, fs);
    }
  }

  /** The matched annotations of a written annotation are the peak's. */
  lemma WrittenAnnotations(p: MspPeak, k: nat, fs: FloatSyntax)
    requires WellBehaved(fs) && WellFormedPeak(p, k)
    requires AnnotationDecodable(EncodeAnnotation(p, fs))
    ensures AnnotationsOf(EncodeAnnotation(p, fs), fs) == Ok(p.annotations)
  {
    var a := EncodeAnnotation(p, fs);
    var first := MatchedText(p.annotations, fs);
    FirstPartRoundTrip(p.annotations, fs);
    AnnotationWords(p, fs);
    QuestionPrefix(a);
    if |p.annotations| > 0 {
      assert !StartsWith(a, "?");
      assert AnnotationsOf(a, fs) == MatchedOf(first, fs);
    }
  }

  /** The unknown triple of a written annotation is read back. */
  lemma WrittenUnknown(p: MspPeak, k: nat, fs: FloatSyntax)
    requires WellBehaved(fs) && WellFormedPeak(p, k)
    requires AnnotationDecodable(EncodeAnnotation(p, fs))
    ensures var a := EncodeAnnotation(p, fs);
            CreateMspPeak(k, p.peakMz, p.peakIntensity, p.annotations, PartOf(a, 1), PartOf(a, 2), fs) == Ok(p)
  {
    FirstPartRoundTrip(p.annotations, fs);
    AnnotationWords(p, fs);
    if p.unknown.Some? {
      UnknownRoundTrip(p.unknown.value, fs);
    }
  }

  /** A written annotation can be decoded and gives the peak back. */
  lemma AnnotationRoundTrip(p: MspPeak, k: nat, fs: FloatSyntax)
    requires WellBehaved(fs) && WellFormedPeak(p, k)
    ensures var a := EncodeAnnotation(p, fs);
            AnnotationDecodable(a) && AnnotationsOf(a, fs) == Ok(p.annotations)
            && CreateMspPeak(k, p.peakMz, p.peakIntensity, p.annotations, PartOf(a, 1), PartOf(a, 2), fs) == Ok(p)
  {
    WrittenDecodable(p, k, fs);
    WrittenAnnotations(p, k, fs);
    WrittenUnknown(p, k, fs);
  }

  /** The peak at position `k` of a written PSM is the `k`th peak. */
  lemma PeakRoundTrip(p: MspParsedPsm, k: nat, fs: FloatSyntax, massToMz: (real, int) -> real)
    requires WellBehaved(fs) && WellFormedParsedPsm(p, massToMz) && k < |p.peaks|
    requires Decodable(ToPsm(p, fs))
    ensures k < ZipLen(ToPsm(p, fs)) && PeakOf(ToPsm(p, fs), k, fs) == Ok(p.peaks[k])
  {
    var psm := ToPsm(p, fs);
    AnnotationRoundTrip(p.peaks[k], k, fs);
    assert psm.annotationList[k] == EncodeAnnotation(p.peaks[k], fs);
    assert psm.data.mzList[k] == p.peaks[k].peakMz && psm.data.intensityList[k] == p.peaks[k].peakIntensity;
  }

  lemma PeaksFromCons(psm: MspPsm, k: nat, fs: FloatSyntax, p: MspPeak)
    requires Decodable(psm) && k < ZipLen(psm) && PeakOf(psm, k, fs) == Ok(p)
    ensures PeaksFrom(psm, k, fs) == Prepend([p], PeaksFrom(psm, k + 1, fs))
  {
  }

  /** One step of `PeaksFromDecoded`: a decoded peak in front of decoded peaks. */
  lemma PeaksFromStep(psm: MspPsm, peaks: seq<MspPeak>, k: nat, fs: FloatSyntax)
    requires Decodable(psm) && k < ZipLen(psm) == |peaks|
    requires PeakOf(psm, k, fs) == Ok(peaks[k]) && PeaksFrom(psm, k + 1, fs) == Ok(peaks[k + 1..])
    ensures PeaksFrom(psm, k, fs) == Ok(peaks[k..])
  {
    PeaksFromCons(psm, k, fs, peaks[k]);
    assert peaks[k..] == [peaks[k]] + peaks[k + 1..];
  }

  /** Peaks that decode one by one to a list decode together to it. */
  lemma {:induction false} PeaksFromDecoded(psm: MspPsm, peaks: seq<MspPeak>, k: nat, fs: FloatSyntax)
    requires Decodable(psm) && k <= ZipLen(psm) == |peaks|
    requires forall j :: k <= j < ZipLen(psm) ==> PeakOf(psm, j, fs) == Ok(peaks[j])
    ensures PeaksFrom(psm, k, fs) == Ok(peaks[k..])
    decreases ZipLen(psm) - k
  {
    if k < ZipLen(psm) {
      PeaksFromDecoded(psm, peaks, k + 1, fs);
      PeaksFromStep(psm, peaks, k, fs);
    } else {
      assert peaks[k..] == [];
    }
  }

  lemma PeaksRoundTrip(p: MspParsedPsm, fs: FloatSyntax, massToMz: (real, int) -> real)
    requires WellBehaved(fs) && WellFormedParsedPsm(p, massToMz)
    requires Decodable(ToPsm(p, fs))
    ensures PeaksFrom(ToPsm(p, fs), 0, fs) == Ok(p.peaks)
  {
    var psm := ToPsm(p, fs);
    forall j | 0 <= j < |p.peaks| ensures j < ZipLen(psm) && PeakOf(psm, j, fs) == Ok(p.peaks[j]) {
      PeakRoundTrip(p, j, fs, massToMz);
    }
    PeaksFromDecoded(psm, p.peaks, 0, fs);
    assert p.peaks[0..] == p.peaks;
  }

  /** `to_psm` then `to_parsed_psm` gives the parsed PSM back. */
  lemma ParsedPsmRoundTrip(p: MspParsedPsm, fs: FloatSyntax, massToMz: (real, int) -> real)
    requires WellBehaved(fs) && WellFormedParsedPsm(p, massToMz)
    ensures Decodable(ToPsm(p, fs)) && ParsedPsmOf(ToPsm(p, fs), fs, massToMz) == Ok(p)
  {
    var psm := ToPsm(p, fs);
    forall k | 0 <= k < ZipLen(psm) ensures AnnotationDecodable(psm.annotationList[k]) {
      AnnotationRoundTrip(p.peaks[k], k, fs);
    }
    PeaksRoundTrip(p, fs, massToMz);
    var cs := IntToString(p.charge);
    assert '/' !in cs by {
      if p.charge < 0 {
        NotInDigits(NatToString(-p.charge), '/');
      } else {
        NotInDigits(NatToString(p.charge), '/');
      }
    }
    SplitNoSeparator(cs, '/');
    SplitFirst(p.sequence, '/', cs);
    assert psm.header.name == p.sequence + ['/'] + cs;
    ParseSignedOfIntToString(p.charge, I8_MIN, I8_MAX);
  }

  /**
    A PSM in the form `to_psm` writes survives decoding and encoding again
    unchanged, which is what re-writing a decoded file line for line relies on.
   */
  lemma ReencodeIsIdentity(p: MspParsedPsm, fs: FloatSyntax, massToMz: (real, int) -> real)
    requires WellBehaved(fs) && WellFormedParsedPsm(p, massToMz)
    ensures var psm := ToPsm(p, fs);
            Decodable(psm) && ParsedPsmOf(psm, fs, massToMz).Ok?
            && ToPsm(ParsedPsmOf(psm, fs, massToMz).value, fs) == psm
  {
    ParsedPsmRoundTrip(p, fs, massToMz);
  }
}
