/**
  The MGF writer (`mgf/writer.rs`): `write_spectrum` appends one
  `BEGIN IONS … END IONS` block: the title and the precursor's m/z, the
  retention time and the charge when the spectrum has them, one `{mz} {intensity}`
  line per pair of the zipped lists, and `END IONS`. Every piece after the
  `PEPMASS=` line is written with its line break in front. `write_all` writes
  the spectra in order. The sink is the text written so far, and the byte counts
  are the UTF-8 lengths of what each call appends.
 */
module MgfWriting {
  import opened Base
  import opened Text
  import opened Decimal
  import opened Floats
  import opened MgfSpectra

  /** `format!("{}{}", charge, charge_sign)`: the number, then `-` when it is negative and `+` otherwise. */
  function ShowCharge(c: I8): string {
    IntToString(c) + (if c < 0 then "-" else "+")
  }

  /** The number of pairs `zip` makes of two lists. */
  function ZipLen(xs: seq<real>, ys: seq<real>): nat {
    if |xs| <= |ys| then |xs| else |ys|
  }

  /** `{mz} {intensity}` */
  function PeakLine(mz: real, intensity: real, fs: FloatSyntax): string {
    fs.show(mz) + " " + fs.show(intensity)
  }

  /** One line per pair of the zipped lists, in list order. */
  function PeakLines(mzList: seq<real>, intensityList: seq<real>, fs: FloatSyntax): (r: seq<string>)
    ensures |r| == ZipLen(mzList, intensityList)
    ensures forall k :: 0 <= k < |r| ==> r[k] == PeakLine(mzList[k], intensityList[k], fs)
  {
    seq(ZipLen(mzList, intensityList), k requires 0 <= k < ZipLen(mzList, intensityList) =>
      PeakLine(mzList[k], intensityList[k], fs))
  }

  /** The `RTINSECONDS=` and `CHARGE=` lines, each present exactly when there is a value. */
  function OptionalLines(precursorCharge: Option<I8>, retentionTime: Option<real>, fs: FloatSyntax,
                         showCharge: I8 -> string): seq<string> {
    (if retentionTime.Some? then ["RTINSECONDS=" + fs.show(retentionTime.value)] else [])
    + (if precursorCharge.Some? then ["CHARGE=" + showCharge(precursorCharge.value)] else [])
  }

  /** `BEGIN IONS`, the title and the precursor's m/z. */
  function HeadLines(title: string, precursorMz: string): seq<string> {
    ["BEGIN IONS", "TITLE=" + title, "PEPMASS=" + precursorMz]
  }

  /** The lines written from a spectrum's header. */
  function HeaderLines(s: Spectrum, fs: FloatSyntax, showCharge: I8 -> string): seq<string> {
    HeadLines(s.title, fs.show(s.precursorMz)) + OptionalLines(s.precursorCharge, s.retentionTime, fs, showCharge)
  }

  /** The lines of a spectrum's block, with the charge written by `showCharge`. */
  function BlockLines(s: Spectrum, fs: FloatSyntax, showCharge: I8 -> string): seq<string> {
    HeaderLines(s, fs, showCharge) + PeakLines(s.mzList, s.intensityList, fs) + ["END IONS"]
  }

  /** The text of a spectrum's block: each of its lines followed by '\n'. */
  function SpectrumText(s: Spectrum, fs: FloatSyntax, showCharge: I8 -> string): string {
    Unlines(BlockLines(s, fs, showCharge))
  }

  /** The blocks of the spectra, in order. */
  function AllText(ss: seq<Spectrum>, fs: FloatSyntax, showCharge: I8 -> string): string
    decreases |ss|
  {
    if |ss| == 0 then "" else SpectrumText(ss[0], fs, showCharge) + AllText(ss[1..], fs, showCharge)
  }

  /** The sum of the byte counts of the spectra's blocks. */
  function TotalBytes(ss: seq<Spectrum>, fs: FloatSyntax): nat
    decreases |ss|
  {
    if |ss| == 0 then 0 else Utf8Len(SpectrumText(ss[0], fs, ShowCharge)) + TotalBytes(ss[1..], fs)
  }

  /** The contents of the spectra, in order. */
  function ContentsOf(spectra: seq<MgfSpectrum>): (r: seq<Spectrum>)
    reads set s | s in spectra, set s | s in spectra :: s.header
    ensures |r| == |spectra| && forall k :: 0 <= k < |spectra| ==> r[k] == spectra[k].Contents()
    decreases |spectra|
  {
    if |spectra| == 0 then [] else [spectra[0].Contents()] + ContentsOf(spectra[1..])
  }

  // ---------------------------------------------------------------------------
  // Text written a piece at a time

  /** Lines written so far with the break after the last one still to come. */
  function OpenText(ls: seq<string>): string
    requires |ls| > 0
  {
    Unlines(ls[..|ls| - 1]) + ls[|ls| - 1]
  }

  /** Writing `"\n" + l` adds line `l`. */
  lemma OpenStep(ls: seq<string>, l: string)
    requires |ls| > 0
    ensures OpenText(ls + [l]) == OpenText(ls) + ("\n" + l)
  {
    var ms := ls + [l];
    assert ms[..|ms| - 1] == ls;
    assert ls == ls[..|ls| - 1] + [ls[|ls| - 1]];
    UnlinesSnoc(ls[..|ls| - 1], ls[|ls| - 1]);
  }

  /** The final '\n' closes the last line. */
  lemma OpenClose(ls: seq<string>)
    requires |ls| > 0
    ensures OpenText(ls) + "\n" == Unlines(ls)
  {
    assert ls == ls[..|ls| - 1] + [ls[|ls| - 1]];
    UnlinesSnoc(ls[..|ls| - 1], ls[|ls| - 1]);
  }

  /** One more write: the text and the running byte count grow by the piece. */
  lemma Appended(start: string, text: string, piece: string, before: string, after: string, written: nat, n: nat)
    requires before == start + text && after == before + piece
    requires written == Utf8Len(text) && n == Utf8Len(piece)
    ensures after == start + (text + piece) && written + n == Utf8Len(text + piece)
  {
    AppendAssoc(start, text, piece);
    Utf8LenAppend(text, piece);
  }

  lemma {:induction false} AllTextSnoc(ss: seq<Spectrum>, s: Spectrum, fs: FloatSyntax)
    ensures AllText(ss + [s], fs, ShowCharge) == AllText(ss, fs, ShowCharge) + SpectrumText(s, fs, ShowCharge)
    ensures TotalBytes(ss + [s], fs) == TotalBytes(ss, fs) + Utf8Len(SpectrumText(s, fs, ShowCharge))
    decreases |ss|
  {
    if |ss| == 0 {
      assert ss + [s] == [s];
      assert AllText([s], fs, ShowCharge) == SpectrumText(s, fs, ShowCharge) + AllText([], fs, ShowCharge);
    } else {
      assert (ss + [s])[1..] == ss[1..] + [s];
      AllTextSnoc(ss[1..], s, fs);
    }
  }

  /** The byte count of all the blocks is the sum of theirs. */
  lemma {:induction false} AllTextBytes(ss: seq<Spectrum>, fs: FloatSyntax)
    ensures Utf8Len(AllText(ss, fs, ShowCharge)) == TotalBytes(ss, fs)
    decreases |ss|
  {
    if |ss| > 0 {
      AllTextBytes(ss[1..], fs);
      Utf8LenAppend(SpectrumText(ss[0], fs, ShowCharge), AllText(ss[1..], fs, ShowCharge));
    }
  }

  /** The first three pieces of a block, as written, open its first three lines. */
  lemma HeadText(a: string, b: string, c: string)
    ensures OpenText([a, b, c]) == (a + "\n") + (b + "\n") + c
  {
    var ls := [a, b, c];
    assert ls[..2] == [a, b] && ls[2] == c;
    assert Unlines([a, b]) == a + "\n" + Unlines([b]) by {
      assert [a, b][1..] == [b];
    }
    assert Unlines([b]) == b + "\n" + Unlines([]) by {
      assert [b][1..] == [];
    }
  }

  /** The piece `"\n" + last + "\n"` ends the open line and closes the lines with `last`. */
  lemma LastPiece(start: string, done: seq<string>, last: string, before: string, after: string)
    requires |done| > 0 && before == start + OpenText(done) && after == before + ("\n" + last + "\n")
    ensures after == start + Unlines(done + [last])
    ensures Unlines(done + [last]) == OpenText(done) + ("\n" + last + "\n")
  {
    OpenStep(done, last);
    OpenClose(done + [last]);
    AppendAssoc(OpenText(done), "\n" + last, "\n");
    AppendAssoc(start, OpenText(done), "\n" + last + "\n");
  }

  /** The optional lines as the writer adds them one at a time. */
  lemma OptionalSplit(head: seq<string>, precursorCharge: Option<I8>, retentionTime: Option<real>, fs: FloatSyntax)
    ensures var rt := if retentionTime.Some? then head + ["RTINSECONDS=" + fs.show(retentionTime.value)] else head;
            (if precursorCharge.Some? then rt + ["CHARGE=" + ShowCharge(precursorCharge.value)] else rt)
            == head + OptionalLines(precursorCharge, retentionTime, fs, ShowCharge)
  {
  }

  class MgfWriter {
    var out: string

    constructor ()
      ensures out == ""
    {
      out := "";
    }

    /** One `write` of a piece of text; returns its byte count. */
    method Write(s: string) returns (written: nat)
      modifies this
      ensures out == old(out) + s && written == Utf8Len(s)
    {
      out := out + s;
      written := Utf8Len(s);
    }

    /** The first three pieces: `BEGIN IONS`, the title line and the `PEPMASS=` line without its break. */
    method WriteHead(title: string, precursorMz: string) returns (written: nat)
      modifies this
      ensures out == old(out) + OpenText(HeadLines(title, precursorMz))
      ensures written == Utf8Len(OpenText(HeadLines(title, precursorMz)))
    {
      ghost var start := out;
      var first := "BEGIN IONS";
      var second := "TITLE=" + title;
      var third := "PEPMASS=" + precursorMz;
      var n := Write(first + "\n");
      written := n;
      ghost var before := out;
      n := Write(second + "\n");
      Appended(start, first + "\n", second + "\n", before, out, written, n);
      written := written + n;
      before := out;
      n := Write(third);
      Appended(start, (first + "\n") + (second + "\n"), third, before, out, written, n);
      written := written + n;
      HeadText(first, second, third);
    }

    /** A piece that starts with '\n': it ends the line before and opens `line`. */
    method WriteNextLine(line: string, ghost start: string, ghost done: seq<string>) returns (n: nat)
      requires |done| > 0 && out == start + OpenText(done)
      modifies this
      ensures out == start + OpenText(done + [line])
      ensures Utf8Len(OpenText(done + [line])) == Utf8Len(OpenText(done)) + n
    {
      n := Write("\n" + line);
      OpenStep(done, line);
      AppendAssoc(start, OpenText(done), "\n" + line);
      Utf8LenAppend(OpenText(done), "\n" + line);
    }

    /** The last piece, `"\nEND IONS\n"`: it ends the line before, and the block. */
    method WriteEnd(ghost start: string, ghost done: seq<string>) returns (n: nat)
      requires |done| > 0 && out == start + OpenText(done)
      modifies this
      ensures out == start + Unlines(done + ["END IONS"])
      ensures Utf8Len(Unlines(done + ["END IONS"])) == Utf8Len(OpenText(done)) + n
    {
      var last := "END IONS";
      ghost var before := out;
      n := Write("\n" + last + "\n");
      LastPiece(start, done, last, before, out);
      Utf8LenAppend(OpenText(done), "\n" + last + "\n");
    }

    /** `write_spectrum`: appends the spectrum's block and returns its byte count. */
    method WriteSpectrum(spectrum: MgfSpectrum, fs: FloatSyntax) returns (written: nat)
      modifies this
      ensures out == old(out) + SpectrumText(spectrum.Contents(), fs, ShowCharge)
      ensures written == Utf8Len(SpectrumText(spectrum.Contents(), fs, ShowCharge))
    {
      ghost var s := spectrum.Contents();
      ghost var start := out;
      written := WriteHeader(spectrum.header, fs);
      ghost var done := HeaderLines(s, fs, ShowCharge);
      var n := WritePeaks(spectrum.GetMzList(), spectrum.GetIntensityList(), fs, start, done);
      written := written + n;
      done := done + PeakLines(s.mzList, s.intensityList, fs);
      n := WriteEnd(start, done);
      written := written + n;
      assert spectrum.Contents() == s;
    }

    /** The header's lines, the last one without its break. */
    method WriteHeader(specHeader: MgfSpectrumHeader, fs: FloatSyntax) returns (written: nat)
      modifies this
      ensures var s := Spectrum(specHeader.title, specHeader.precursorMz, specHeader.precursorCharge,
                                specHeader.retentionTime, [], []);
              out == old(out) + OpenText(HeaderLines(s, fs, ShowCharge))
              && written == Utf8Len(OpenText(HeaderLines(s, fs, ShowCharge)))
    {
      ghost var start := out;
      written := WriteHead(specHeader.GetTitle(), fs.show(specHeader.GetPrecursorMz()));
      ghost var done := HeadLines(specHeader.title, fs.show(specHeader.precursorMz));
      ghost var head := done;
      var n: nat;
      var retentionTime := specHeader.GetRetentionTime();
      if retentionTime.Some? {
        n := WriteNextLine("RTINSECONDS=" + fs.show(retentionTime.value), start, done);
        done := done + ["RTINSECONDS=" + fs.show(retentionTime.value)];
        written := written + n;
      }
      var charge := specHeader.GetPrecursorCharge();
      if charge.Some? {
        var chargeSign := if charge.value < 0 then "-" else "+";
        n := WriteNextLine("CHARGE=" + (IntToString(charge.value) + chargeSign), start, done);
        done := done + ["CHARGE=" + ShowCharge(charge.value)];
        written := written + n;
      }
      OptionalSplit(head, charge, retentionTime, fs);
    }

    /** The `{mz} {intensity}` lines of the zipped lists, each with its break in front. */
    method WritePeaks(mzList: seq<real>, intensityList: seq<real>, fs: FloatSyntax,
                      ghost start: string, ghost head: seq<string>) returns (written: nat)
      requires |head| > 0 && out == start + OpenText(head)
      modifies this
      ensures out == start + OpenText(head + PeakLines(mzList, intensityList, fs))
      ensures Utf8Len(OpenText(head + PeakLines(mzList, intensityList, fs))) == Utf8Len(OpenText(head)) + written
    {
      ghost var peaks := PeakLines(mzList, intensityList, fs);
      ghost var done := head;
      written := 0;
      var k := 0;
      assert done == head + peaks[..k];
      while k < |mzList| && k < |intensityList|
        invariant 0 <= k <= |peaks| && |done| > 0
        invariant done == head + peaks[..k]
        invariant out == start + OpenText(done)
        invariant Utf8Len(OpenText(done)) == Utf8Len(OpenText(head)) + written
      {
        var line := fs.show(mzList[k]) + " " + fs.show(intensityList[k]);
        var n := WriteNextLine(line, start, done);
        assert line == peaks[k];
        TakeNext(peaks, k);
        SnocAssoc(head, peaks[..k], line);
        done := done + [line];
        written := written + n;
        k := k + 1;
      }
      assert peaks[..k] == peaks;
    }

    /** One spectrum of `write_all`: its text follows what was written for the spectra before it. */
    method WriteAnother(spectrum: MgfSpectrum, fs: FloatSyntax, ghost start: string, ghost done: seq<Spectrum>,
                        ghost s: Spectrum)
      returns (written: nat)
      modifies this
      requires s == spectrum.Contents()
      requires out == start + AllText(done, fs, ShowCharge)
      ensures out == start + AllText(done + [s], fs, ShowCharge)
      ensures TotalBytes(done + [s], fs) == TotalBytes(done, fs) + written
    {
      written := WriteSpectrum(spectrum, fs);
      AllTextSnoc(done, s, fs);
      AppendAssoc(start, AllText(done, fs, ShowCharge), SpectrumText(s, fs, ShowCharge));
    }

    /** `write_all`: the spectra in order; returns the sum of the byte counts. */
    method WriteAll(spectra: seq<MgfSpectrum>, fs: FloatSyntax) returns (written: nat)
      modifies this
      ensures out == old(out) + AllText(ContentsOf(spectra), fs, ShowCharge)
      ensures written == TotalBytes(ContentsOf(spectra), fs) == Utf8Len(AllText(ContentsOf(spectra), fs, ShowCharge))
    {
      ghost var ss := ContentsOf(spectra);
      ghost var start := out;
      written := 0;
      var k := 0;
      assert ss[..k] == [];
      while k < |spectra|
        invariant 0 <= k <= |spectra| == |ss|
        invariant forall j :: 0 <= j < |spectra| ==> spectra[j].Contents() == ss[j]
        invariant out == start + AllText(ss[..k], fs, ShowCharge)
        invariant written == TotalBytes(ss[..k], fs)
      {
        var n := WriteAnother(spectra[k], fs, start, ss[..k], ss[k]);
        TakeNext(ss, k);
        written := written + n;
        k := k + 1;
      }
      assert ss[..k] == ss == ContentsOf(spectra);
      AllTextBytes(ss, fs);
    }
  }
}
