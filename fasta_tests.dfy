/**
  The unit tests of `fasta/reader.rs` and `fasta/writer.rs`, on the test
  protein's six sequence lines: `create_entry` on the test header and the
  lines joined by '\n' gives the expected fields and the unwrapped sequence,
  and `format_sequence` wraps the unwrapped sequence back into the six lines.
  A third lemma reads the test header and the six lines as a file.
 */
module FastaTests {
  import opened Text
  import opened FastaUniProt
  import opened FastaUniProtTestData
  import opened FastaUniProtTests
  import opened FastaReading
  import opened FastaReaderLaws
  import opened FastaWriting
  import FastaFileLaws
  import FastaPlain

  const SequenceLine1: string :=
    "MGHAAGASAQ" + "IAPVVGIIAN" + "PISARDIRRV" + "IANANSLQLA" + "DRVNIVLRLL" + "AALASCGVER"
  const SequenceLine2: string :=
    "VLMMPDREGL" + "RVMLARHLAR" + "RQGPDSGLPA" + "VDYLDMPVTA" + "RVDDTLRAAR" + "CMADAGVAAI"
  const SequenceLine3: string :=
    "IVLGGDGTHR" + "AVVRECGAVP" + "IAGLSTGTNN" + "AYPEMREPTI" + "IGLATGLYAT" + "GRIPPAQALA"
  const SequenceLine4: string :=
    "SNKRLDIVIR" + "DGNGGFRRDI" + "ALVDAVISHE" + "HFIGARALWK" + "TDTLAAVYVS" + "FADPEAIGLS"
  const SequenceLine5: string :=
    "SIAGLLEPVG" + "RREEGGLAIE" + "LAAPGEGEFD" + "LCAPIAPGLM" + "CTVPVAGWQR" + "LEHGRPHRVR"
  const SequenceLine6: string :=
    "QRSGIVALDG" + "ERELAFGPDD" + "EVTVTLHDHA" + "FRSIDVAACM" + "RHAGRHHLMR" + "SLPQPAAVG"

  /**
    The test protein's sequence as a FASTA file shows it: 60 residues per line,
    59 on the last. Each line is written as pieces of ten residues, so that the
    verifier looks at a few characters at a time.
   */
  const SequenceLines: seq<string> :=
    [SequenceLine1, SequenceLine2, SequenceLine3, SequenceLine4, SequenceLine5, SequenceLine6]

  /** The reader test's `TEST_SEQUENCE` and the writer test's `EXPECTED_SEQUENCE`: the lines joined by '\n'. */
  const WrappedSequence: string := Join(SequenceLines, "\n")

  /** The reader test's `EXPECTED_SEQUENCE` and the writer test's `TEST_SEQUENCE`: the lines run together. */
  const UnwrappedSequence: string := Concat(SequenceLines)

  /** `EXPECTED_KEYWORD_ATTRIBUTES` of the reader test. */
  const ExpectedKeywordAttributes: seq<(string, string)> :=
    [("OS", Organism), ("OX", "381666"), ("GN", "acoX"), ("PE", "4"), ("SV", "2")]

  lemma SequenceLinesShape()
    ensures forall k :: 0 <= k < |SequenceLines| - 1 ==> |SequenceLines[k]| == MaxAminoAcidsPerLine
    ensures |SequenceLines[|SequenceLines| - 1]| == 59
  {
  }

  /** Residue letters: upper-case ASCII. */
  predicate Letters(s: string) {
    forall i :: 0 <= i < |s| ==> 'A' <= s[i] <= 'Z'
  }

  lemma Line1Letters()
    ensures Letters(SequenceLine1)
  {
  }

  lemma Line2Letters()
    ensures Letters(SequenceLine2)
  {
  }

  lemma Line3Letters()
    ensures Letters(SequenceLine3)
  {
  }

  lemma Line4Letters()
    ensures Letters(SequenceLine4)
  {
  }

  lemma Line5Letters()
    ensures Letters(SequenceLine5)
  {
  }

  lemma Line6Letters()
    ensures Letters(SequenceLine6)
  {
  }

  lemma SequenceLinesLetters()
    ensures forall k :: 0 <= k < |SequenceLines| ==> Letters(SequenceLines[k])
  {
    Line1Letters(); Line2Letters(); Line3Letters(); Line4Letters(); Line5Letters(); Line6Letters();
  }

  /** A join of pieces ends as its last piece does. */
  lemma {:induction false} JoinLast(ps: seq<string>, sep: string)
    requires |ps| > 0 && |ps[|ps| - 1]| > 0
    ensures var j := Join(ps, sep); var l := ps[|ps| - 1]; |j| > 0 && j[|j| - 1] == l[|l| - 1]
    decreases |ps|
  {
    if |ps| > 1 {
      JoinLast(ps[1..], sep);
    }
  }

  /** `test_seqeunce_formatting`: the unwrapped sequence is wrapped into the six lines. */
  lemma TestSequenceFormatting()
    ensures FormatSequence(UnwrappedSequence) == WrappedSequence
  {
    SequenceLinesShape();
    ChunksOfPieces(SequenceLines, MaxAminoAcidsPerLine);
  }

  /** `test_entry_creation`: the expected fields, the unwrapped sequence and each expected attribute. */
  lemma TestEntryCreation()
    ensures Decodable(TestHeader)
    ensures var e := EntryOf(TestHeader, WrappedSequence, false);
            e.database == "sp" && e.accession == "P27748" && e.entryName == "ACOX_CUPNH"
            && e.proteinName == Protein && e.sequence == UnwrappedSequence && e.plainHeader.None?
            && forall k :: 0 <= k < |ExpectedKeywordAttributes| ==>
                 var (key, value) := ExpectedKeywordAttributes[k];
                 key in e.keywordAttributes && e.keywordAttributes[key] == value
  {
    TestCreation();
    SequenceLinesLetters();
    forall k | 0 <= k < |SequenceLines| ensures '\n' !in SequenceLines[k] {
      assert Letters(SequenceLines[k]);
    }
    EntryOfLines(TestHeader, SequenceLines, false);
  }

  /** The test header followed by the six lines is read as one entry: the header and the unwrapped sequence. */
  lemma TestReadFile()
    ensures ReadAll([TestHeader] + SequenceLines) == [(TestHeader, UnwrappedSequence)]
  {
    var lines := [TestHeader] + SequenceLines;
    assert lines == FastaFileLaws.Layout([TestHeader], [SequenceLines]);
    assert HeaderLine(TestHeader) by {
      assert TestHeader[0] == '>';
      JoinLast(TestItems, " ");
    }
    SequenceLinesLetters();
    assert FastaFileLaws.SequenceBlock(SequenceLines) by {
      forall m | 0 <= m < |SequenceLines| ensures SequenceLine(SequenceLines[m]) {
        var l := SequenceLines[m];
        assert Letters(l);
        assert l[0] != '>' && !IsWhitespace(l[0]) && !IsWhitespace(l[|l| - 1]);
      }
    }
    FastaFileLaws.ReadLayout(lines, [TestHeader], [SequenceLines]);
  }

  /** `test_display` of `fasta/headers/plain.rs`: the full UniProt test header, with its `|`, `=` and `/`, displays as itself. */
  lemma TestPlainDisplay()
    ensures '|' in TestHeader && '=' in TestHeader && '/' in TestHeader
    ensures FastaPlain.Display(FastaPlain.New(TestHeader)) == TestHeader
  {
    assert '/' in Organism5 && '/' in Organism;
    assert '=' in TestItems[0] && Join(TestItems, " ") == TestItems[0] + " " + Join(TestItems[1..], " ");
  }
}
