/**
  The MSP writer: `MspWriter::write_psm` appends one PSM as four header lines
  and one line per peak, with an empty line before every PSM but the first;
  `write_all` writes a sequence of PSMs. The sink is the text written so far;
  the byte counts are the UTF-8 lengths of what each call appends.
 */
module MspWriting {
  import opened Text
  import opened Decimal
  import opened Floats
  import opened MspPsmCodec

  /** `Name`, `MW`, `Comment` and `Num peaks`, in that order; `Num peaks` is the header's, not the list length. */
  function HeaderLines(h: MspPsmHeader, fs: FloatSyntax): seq<string> {
    ["Name: " + h.name, "MW: " + fs.show(h.mw), "Comment: " + h.comment, "Num peaks: " + NatToString(h.numPeaks)]
  }

  /** `{mz}\t{intensity}\t"{annotation}"`. */
  function PeakLine(mz: real, intensity: real, annotation: string, fs: FloatSyntax): string {
    fs.show(mz) + "\t" + fs.show(intensity) + "\t\"" + annotation + "\""
  }

  /** One line per position of the zipped m/z, intensity and annotation lists, in list order. */
  function PeakLines(psm: MspPsm, fs: FloatSyntax): (r: seq<string>)
    ensures |r| == ZipLen(psm)
    ensures forall k :: 0 <= k < |r| ==>
              r[k] == PeakLine(psm.data.mzList[k], psm.data.intensityList[k], psm.annotationList[k], fs)
  {
    seq(ZipLen(psm), k requires 0 <= k < ZipLen(psm) =>
      PeakLine(psm.data.mzList[k], psm.data.intensityList[k], psm.annotationList[k], fs))
  }

  function PsmLines(psm: MspPsm, fs: FloatSyntax): seq<string> {
    HeaderLines(psm.header, fs) + PeakLines(psm, fs)
  }

  /** What `write_psm` appends after the separator: every line of the PSM followed by '\n'. */
  function PsmText(psm: MspPsm, fs: FloatSyntax): string {
    Unlines(PsmLines(psm, fs))
  }

  /** What a writer appends for `psms`; `separated` says whether it has written a PSM before. */
  function Records(psms: seq<MspPsm>, separated: bool, fs: FloatSyntax): string
    decreases |psms|
  {
    if |psms| == 0 then ""
    else (if separated then "\n" else "") + PsmText(psms[0], fs) + Records(psms[1..], true, fs)
  }

  /** Writing one more PSM appends its separator and its text. */
  lemma {:induction false} RecordsSnoc(psms: seq<MspPsm>, p: MspPsm, separated: bool, fs: FloatSyntax)
    ensures Records(psms + [p], separated, fs)
            == Records(psms, separated, fs) + (if separated || |psms| > 0 then "\n" else "") + PsmText(p, fs)
    decreases |psms|
  {
    if |psms| == 0 {
      assert [] + [p] == [p];
      assert ([p])[1..] == [];
    } else {
      assert (psms + [p])[0] == psms[0];
      assert (psms + [p])[1..] == psms[1..] + [p];
      RecordsSnoc(psms[1..], p, true, fs);
    }
  }

  /** One more write: the text and the running byte count both grow by the piece. */
  lemma Appended(start: string, text: string, piece: string, before: string, after: string, written: nat, n: nat)
    requires before == start + text && after == before + piece
    requires written == Utf8Len(text) && n == Utf8Len(piece)
    ensures after == start + (text + piece) && written + n == Utf8Len(text + piece)
  {
    AppendAssoc(start, text, piece);
    Utf8LenAppend(text, piece);
  }

  /** The four header lines, written one after the other. */
  lemma HeaderText(h: seq<string>, sep: string)
    requires |h| == 4
    ensures sep + (h[0] + "\n") + (h[1] + "\n") + (h[2] + "\n") + (h[3] + "\n") == sep + Unlines(h)
  {
    assert Unlines(h[3..]) == h[3] + "\n" by { assert h[3..][1..] == []; }
    assert Unlines(h[2..]) == h[2] + "\n" + Unlines(h[3..]) by { assert h[2..][1..] == h[3..]; }
    assert Unlines(h[1..]) == h[1] + "\n" + Unlines(h[2..]) by { assert h[1..][1..] == h[2..]; }
  }

  /** One more peak line. */
  lemma PeakText(prefix: string, peaks: seq<string>, k: nat)
    requires k < |peaks|
    ensures prefix + Unlines(peaks[..k]) + (peaks[k] + "\n") == prefix + Unlines(peaks[..k + 1])
  {
    UnlinesSnoc(peaks[..k], peaks[k]);
    assert peaks[..k + 1] == peaks[..k] + [peaks[k]];
  }

  /** The records of the first `k + 1` PSMs: those of the first `k`, then the next one as `write_psm` writes it. */
  lemma RecordsStep(psms: seq<MspPsm>, k: nat, separated: bool, fs: FloatSyntax)
    requires k < |psms|
    ensures Records(psms[..k + 1], separated, fs)
            == Records(psms[..k], separated, fs) + ((if separated || k > 0 then "\n" else "") + PsmText(psms[k], fs))
    ensures Utf8Len(Records(psms[..k + 1], separated, fs))
            == Utf8Len(Records(psms[..k], separated, fs)) + Utf8Len((if separated || k > 0 then "\n" else "") + PsmText(psms[k], fs))
  {
    var sep := if separated || k > 0 then "\n" else "";
    var front := Records(psms[..k], separated, fs);
    RecordsSnoc(psms[..k], psms[k], separated, fs);
    assert psms[..k + 1] == psms[..k] + [psms[k]];
    AppendAssoc(front, sep, PsmText(psms[k], fs));
    Utf8LenAppend(front, sep + PsmText(psms[k], fs));
  }

  /** The effect of the `k`-th `write_psm` of `write_all` on the text and the running byte count. */
  lemma WriteAllStep(psms: seq<MspPsm>, k: nat, separated: bool, fs: FloatSyntax,
                     start: string, before: string, after: string, written: nat, n: nat)
    requires k < |psms|
    requires before == start + Records(psms[..k], separated, fs)
    requires written == Utf8Len(Records(psms[..k], separated, fs))
    requires after == before + (if separated || k > 0 then "\n" else "") + PsmText(psms[k], fs)
    requires n == Utf8Len((if separated || k > 0 then "\n" else "") + PsmText(psms[k], fs))
    ensures after == start + Records(psms[..k + 1], separated, fs)
    ensures written + n == Utf8Len(Records(psms[..k + 1], separated, fs))
  {
    var piece := (if separated || k > 0 then "\n" else "") + PsmText(psms[k], fs);
    RecordsStep(psms, k, separated, fs);
    AppendAssoc(before, if separated || k > 0 then "\n" else "", PsmText(psms[k], fs));
    AppendAssoc(start, Records(psms[..k], separated, fs), piece);
  }

  class MspWriter {
    var psmCount: nat
    var out: string

    constructor ()
      ensures psmCount == 0 && out == ""
    {
      psmCount := 0;
      out := "";
    }

    /** `write_psm`: returns the number of bytes it appended. */
    method WritePsm(psm: MspPsm, fs: FloatSyntax) returns (written: nat)
      modifies this
      ensures psmCount == old(psmCount) + 1
      ensures out == old(out) + (if old(psmCount) > 0 then "\n" else "") + PsmText(psm, fs)
      ensures written == Utf8Len((if old(psmCount) > 0 then "\n" else "") + PsmText(psm, fs))
    {
      ghost var start := out;
      ghost var sep := if psmCount > 0 then "\n" else "";
      written := 0;
      if psmCount > 0 {
        written := WriteStr("\n");
      }
      ghost var h := HeaderLines(psm.header, fs);
      ghost var text := sep;
      assert out == start + text && written == Utf8Len(text);
      ghost var before := out;
      var n := WriteHeader(psm.header, fs);
      Appended(start, text, Unlines(h), before, out, written, n);
      text, written := text + Unlines(h), written + n;
      ghost var peaks := PeakLines(psm, fs);
      var k := 0;
      assert text + Unlines(peaks[..k]) == text;
      while k < ZipLen(psm)
        invariant 0 <= k <= ZipLen(psm) && psmCount == old(psmCount)
        invariant out == start + (text + Unlines(peaks[..k]))
        invariant written == Utf8Len(text + Unlines(peaks[..k]))
      {
        before := out;
        n := WriteStr(PeakLine(psm.data.mzList[k], psm.data.intensityList[k], psm.annotationList[k], fs) + "\n");
        Appended(start, text + Unlines(peaks[..k]), peaks[k] + "\n", before, out, written, n);
        PeakText(text, peaks, k);
        written := written + n;
        k := k + 1;
      }
      assert peaks[..k] == peaks;
      UnlinesAppend(h, peaks);
      AppendAssoc(sep, Unlines(h), Unlines(peaks));
      AppendAssoc(start, sep, PsmText(psm, fs));
      psmCount := psmCount + 1;
    }

    /** The four header lines of `write_psm`, each as one `_write_string`. */
    method WriteHeader(header: MspPsmHeader, fs: FloatSyntax) returns (written: nat)
      modifies this
      ensures out == old(out) + Unlines(HeaderLines(header, fs)) && psmCount == old(psmCount)
      ensures written == Utf8Len(Unlines(HeaderLines(header, fs)))
    {
      ghost var h := HeaderLines(header, fs);
      ghost var start := out;
      ghost var text := "";
      ghost var before := out;
      written := 0;
      assert out == start + text;
      var n := WriteStr("Name: " + header.name + "\n");
      Appended(start, text, h[0] + "\n", before, out, written, n);
      text, before, written := text + (h[0] + "\n"), out, written + n;
      n := WriteStr("MW: " + fs.show(header.mw) + "\n");
      Appended(start, text, h[1] + "\n", before, out, written, n);
      text, before, written := text + (h[1] + "\n"), out, written + n;
      n := WriteStr("Comment: " + header.comment + "\n");
      Appended(start, text, h[2] + "\n", before, out, written, n);
      text, before, written := text + (h[2] + "\n"), out, written + n;
      n := WriteStr("Num peaks: " + NatToString(header.numPeaks) + "\n");
      Appended(start, text, h[3] + "\n", before, out, written, n);
      text, written := text + (h[3] + "\n"), written + n;
      HeaderText(h, "");
      assert "" + Unlines(h) == Unlines(h);
    }

    /** `_write_str` and `_write_string`: append the text and report its bytes. */
    method WriteStr(s: string) returns (written: nat)
      modifies this
      ensures out == old(out) + s && psmCount == old(psmCount)
      ensures written == Utf8Len(s)
    {
      out := out + s;
      written := Utf8Len(s);
    }

    /** `write_all`: the PSMs in order; returns the sum of the byte counts. */
    method WriteAll(psms: seq<MspPsm>, fs: FloatSyntax) returns (written: nat)
      modifies this
      ensures psmCount == old(psmCount) + |psms|
      ensures out == old(out) + Records(psms, old(psmCount) > 0, fs)
      ensures written == Utf8Len(Records(psms, old(psmCount) > 0, fs))
    {
      ghost var start := out;
      ghost var separated := psmCount > 0;
      written := 0;
      var k := 0;
      assert psms[..k] == [];
      assert out == start + Records(psms[..k], separated, fs);
      while k < |psms|
        invariant 0 <= k <= |psms|
        invariant psmCount == old(psmCount) + k
        invariant out == start + Records(psms[..k], separated, fs)
        invariant written == Utf8Len(Records(psms[..k], separated, fs))
      {
        assert (psmCount > 0) == (separated || k > 0);
        ghost var before := out;
        var n := WritePsm(psms[k], fs);
        WriteAllStep(psms, k, separated, fs, start, before, out, written, n);
        written := written + n;
        k := k + 1;
      }
      assert psms[..k] == psms;
    }
  }
}
