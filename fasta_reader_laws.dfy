/**
  Laws of the FASTA reader: the entry `create_entry` builds from a displayed
  UniProt header carries that header's fields; the sequence lines between
  two headers are trimmed and appended in order; lines before the first
  header belong to the first entry.
 */
module FastaReaderLaws {
  import opened Base
  import opened Text
  import opened FastaUniProt
  import opened FastaUniProtLaws
  import opened FastaReading

  /** The empty text `current_attr` starts as adds no attribute. */
  lemma EmptyAttributeAddsNothing(attrs: map<string, string>)
    ensures PrepAndAddAttribute("", attrs) == attrs
  {
  }

  /** A header written by the UniProt display is decoded into its own fields. */
  lemma EntryOfDisplay(u: UniProt, order: seq<string>, testBuild: bool, sequence: string, keep: bool)
    requires WellFormed(u) && IsListing(order, u.keywordAttributes)
    ensures Decodable(Display(u, order, testBuild))
    ensures var e := EntryOf(Display(u, order, testBuild), sequence, keep);
            e.database == u.database && e.accession == u.accession && e.entryName == u.entryName
            && e.proteinName == u.proteinName && e.keywordAttributes == u.keywordAttributes
  {
    DecodeDisplay(u, order, testBuild);
  }

  /** Sequence lines joined by '\n' are stored as their concatenation. */
  lemma EntryOfLines(header: string, ls: seq<string>, keep: bool)
    requires Decodable(header) && forall k :: 0 <= k < |ls| ==> '\n' !in ls[k]
    ensures EntryOf(header, Join(ls, "\n"), keep).sequence == Concat(ls)
  {
    RemoveNewlinesJoin(ls);
  }

  /** A line `next` appends to the sequence: trimmed already, not a header line. */
  predicate SequenceLine(line: string) {
    Trimmed(line) && !StartsWith(line, ">")
  }

  /** A line `next` takes as a header: trimmed already, starting with `>`. */
  predicate HeaderLine(line: string) {
    Trimmed(line) && StartsWith(line, ">")
  }

  /** A sequence line and a header line, as `next` classifies them. */
  lemma ClassifyLines(line: string)
    ensures SequenceLine(line) ==> Classify(line) == Line(line, false)
    ensures HeaderLine(line) ==> Classify(line) == Line(line, true)
  {
    if Trimmed(line) {
      TrimOfTrimmed(line);
    }
  }

  /** Lines `body` sit in `lines` from line `i` on. */
  predicate RunAt(lines: seq<string>, i: nat, body: seq<string>) {
    i + |body| <= |lines| && forall m :: 0 <= m < |body| ==> lines[i + m] == body[m]
  }

  /** Classified lines `body`, none of them a header, sit in `ls` from line `i` on. */
  predicate BodyAt(ls: seq<Line>, i: nat, body: seq<string>) {
    i + |body| <= |ls| && forall m :: 0 <= m < |body| ==> ls[i + m] == Line(body[m], false)
  }

  /** A run of sequence lines is classified as a run of non-header lines. */
  lemma ClassifiedRun(lines: seq<string>, i: nat, body: seq<string>)
    requires RunAt(lines, i, body) && forall m :: 0 <= m < |body| ==> SequenceLine(body[m])
    ensures BodyAt(Classified(lines), i, body)
  {
    forall m | 0 <= m < |body| ensures Classified(lines)[i + m] == Line(body[m], false) {
      ClassifyLines(body[m]);
    }
  }

  /** Sequence lines are appended to the sequence in order, whatever header is pending. */
  lemma {:induction false} ScanBody(ls: seq<Line>, i: nat, body: seq<string>, header: string, sequence: string)
    requires BodyAt(ls, i, body)
    ensures Scan(ls, i, header, sequence) == Scan(ls, i + |body|, header, sequence + Concat(body))
    decreases |body|
  {
    if |body| > 0 {
      assert ls[i] == Line(body[0], false);
      assert BodyAt(ls, i + 1, body[1..]) by {
        forall m | 0 <= m < |body[1..]| ensures ls[i + 1 + m] == Line(body[1..][m], false) {
          assert ls[i + (m + 1)] == Line(body[m + 1], false);
        }
      }
      ScanBody(ls, i + 1, body[1..], header, sequence + body[0]);
      AppendAssoc(sequence, body[0], Concat(body[1..]));
      assert Concat(body) == body[0] + Concat(body[1..]);
    } else {
      assert sequence + Concat(body) == sequence;
    }
  }

  /** At a header line, a pending header is handed over with the sequence gathered for it. */
  lemma ScanHeader(ls: seq<Line>, i: nat, header: string, sequence: string)
    requires i < |ls| && ls[i].isHeader && |header| > 0
    ensures Scan(ls, i, header, sequence) == Emission(header, sequence, i + 1, ls[i].text, false)
  {
  }

  /** At the end of the input the pending header is handed over and `is_eof` is set. */
  lemma ScanEnd(ls: seq<Line>, header: string, sequence: string)
    ensures Scan(ls, |ls|, header, sequence) == Emission(header, sequence, |ls|, header, true)
  {
  }

  /**
    The lines before the first header line are not lost: the first call keeps
    them and the lines after that header, and hands them over together as the
    first entry's sequence.
   */
  lemma LeadingLinesPrepended(lines: seq<string>, lead: seq<string>)
    requires RunAt(lines, 0, lead) && forall m :: 0 <= m < |lead| ==> SequenceLine(lead[m])
    requires |lead| < |lines| && HeaderLine(lines[|lead|])
    ensures var ls := Classified(lines);
            Scan(ls, 0, "", "") == Scan(ls, |lead| + 1, lines[|lead|], Concat(lead))
  {
    var ls := Classified(lines);
    ClassifiedRun(lines, 0, lead);
    ScanBody(ls, 0, lead, "", "");
    ClassifyLines(lines[|lead|]);
    assert "" + Concat(lead) == Concat(lead);
  }

  /** The first header line is only stored: nothing is handed over for it. */
  lemma FirstHeaderStored(lines: seq<string>, sequence: string)
    requires 0 < |lines| && HeaderLine(lines[0])
    ensures Scan(Classified(lines), 0, "", sequence) == Scan(Classified(lines), 1, lines[0], sequence)
  {
    ClassifyLines(lines[0]);
  }
}
