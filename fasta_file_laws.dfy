/**
  The round trip of the FASTA format with plain headers: the entries the
  writer writes are read back by the reader, each with its header line kept,
  as the same headers and sequences in the same order; and a file in the
  writer's own layout is written back, after reading, as the same text.
 */
module FastaFileLaws {
  import opened Base
  import opened Text
  import FastaUniProt
  import FastaPlain
  import opened FastaEntries
  import opened FastaReading
  import opened FastaReaderLaws
  import opened FastaWriting

  /** A header line the reader takes back unchanged and `create_entry` decodes. */
  predicate GoodHeader(h: string) {
    HeaderLine(h) && NoNewline(h) && FastaUniProt.Decodable(h)
  }

  /** Residue letters: no whitespace (so no line break) and no `>`. */
  predicate Residues(s: string) {
    forall i :: 0 <= i < |s| ==> !IsWhitespace(s[i]) && s[i] != '>'
  }

  predicate WellFormedEntry(e: Entry<FastaPlain.Plain>) {
    GoodHeader(FastaPlain.Display(e.header)) && Residues(e.sequence)
  }

  predicate WellFormedEntries(es: seq<Entry<FastaPlain.Plain>>) {
    forall k :: 0 <= k < |es| ==> WellFormedEntry(es[k])
  }

  /** The lines `write_entry` writes for a sequence: its chunks, or one empty line for the empty sequence. */
  function SequenceLines(s: string): seq<string> {
    if |s| == 0 then [""] else Chunks(s, MaxAminoAcidsPerLine)
  }

  function EntryLines(e: Entry<FastaPlain.Plain>): seq<string> {
    [FastaPlain.Display(e.header)] + SequenceLines(e.sequence)
  }

  /** The lines of the file `write_all` writes. */
  function FileLines(es: seq<Entry<FastaPlain.Plain>>): seq<string>
    decreases |es|
  {
    if |es| == 0 then [] else EntryLines(es[0]) + FileLines(es[1..])
  }

  /** A kept header line and the sequence, as an entry with a plain header. */
  function AsPlain(e: FastaEntry): Entry<FastaPlain.Plain>
    requires e.plainHeader.Some?
  {
    New(FastaPlain.New(e.plainHeader.value), e.sequence)
  }

  /** The `(header, sequence)` pairs of entries with plain headers. */
  function Raws(es: seq<Entry<FastaPlain.Plain>>): (r: seq<(string, string)>)
    ensures |r| == |es|
    ensures forall k :: 0 <= k < |es| ==> r[k] == (FastaPlain.Display(es[k].header), es[k].sequence)
  {
    seq(|es|, k requires 0 <= k < |es| => (FastaPlain.Display(es[k].header), es[k].sequence))
  }

  // ---------------------------------------------------------------------------
  // The written text as lines

  /** The sequence lines of residues are read back as the sequence, one line at a time. */
  lemma SequenceLinesRead(s: string)
    requires Residues(s)
    ensures var ls := SequenceLines(s);
            Concat(ls) == s && forall m :: 0 <= m < |ls| ==> SequenceLine(ls[m]) && NoNewline(ls[m])
  {
    var ls := SequenceLines(s);
    if |s| == 0 {
      assert Concat(ls) == "" + Concat([]);
    } else {
      ChunksKeep(s, MaxAminoAcidsPerLine, c => !IsWhitespace(c) && c != '>');
      forall m | 0 <= m < |ls| ensures SequenceLine(ls[m]) && NoNewline(ls[m]) {
        var l := ls[m];
        assert !IsWhitespace(l[0]) && l[0] != '>';
        assert !IsWhitespace(l[|l| - 1]);
        assert l[..1] != ">" by { assert l[..1][0] == l[0]; }
        forall i | 0 <= i < |l| ensures l[i] != '\n' {
          assert !IsWhitespace(l[i]);
        }
      }
    }
  }

  lemma UnlinesCons(h: string, ls: seq<string>)
    ensures Unlines([h] + ls) == h + "\n" + Unlines(ls)
  {
    assert ([h] + ls)[1..] == ls;
  }

  /** `write_entry`'s text is its lines, each followed by '\n'. */
  lemma EntryTextLines(e: Entry<FastaPlain.Plain>)
    ensures EntryText(e, FastaPlain.Display) == Unlines(EntryLines(e))
  {
    var h := FastaPlain.Display(e.header);
    var s := e.sequence;
    UnlinesCons(h, SequenceLines(s));
    if |s| == 0 {
      UnlinesCons("", []);
    } else {
      var ch := Chunks(s, MaxAminoAcidsPerLine);
      UnlinesAsJoin(ch);
      JoinAppend(ch, [""], "\n");
      AppendAssoc(h + "\n", FormatSequence(s), "\n");
    }
  }

  /** `write_all`'s text is the file's lines, each followed by '\n'. */
  lemma {:induction false} AllTextLines(es: seq<Entry<FastaPlain.Plain>>)
    ensures AllText(es, FastaPlain.Display) == Unlines(FileLines(es))
    decreases |es|
  {
    if |es| > 0 {
      AllTextLines(es[1..]);
      EntryTextLines(es[0]);
      UnlinesAppend(EntryLines(es[0]), FileLines(es[1..]));
    }
  }

  lemma NoNewlineAppend(a: seq<string>, b: seq<string>)
    requires forall k :: 0 <= k < |a| ==> NoNewline(a[k])
    requires forall k :: 0 <= k < |b| ==> NoNewline(b[k])
    ensures forall k :: 0 <= k < |a + b| ==> NoNewline((a + b)[k])
  {
    forall k | 0 <= k < |a + b| ensures NoNewline((a + b)[k]) {
      if k >= |a| {
        assert (a + b)[k] == b[k - |a|];
      }
    }
  }

  lemma {:induction false} FileLinesNoNewline(es: seq<Entry<FastaPlain.Plain>>)
    requires WellFormedEntries(es)
    ensures forall k :: 0 <= k < |FileLines(es)| ==> NoNewline(FileLines(es)[k])
    decreases |es|
  {
    if |es| > 0 {
      assert WellFormedEntries(es[1..]) by {
        forall k | 0 <= k < |es[1..]| ensures WellFormedEntry(es[1..][k]) {
          assert es[1..][k] == es[k + 1];
        }
      }
      FileLinesNoNewline(es[1..]);
      SequenceLinesRead(es[0].sequence);
      NoNewlineAppend([FastaPlain.Display(es[0].header)], SequenceLines(es[0].sequence));
      NoNewlineAppend(EntryLines(es[0]), FileLines(es[1..]));
    }
  }

  // ---------------------------------------------------------------------------
  // Reading the lines back

  lemma PrefixRun(lines: seq<string>, i: nat, body: seq<string>, rest: seq<string>)
    requires i <= |lines| && lines[i..] == body + rest
    ensures RunAt(lines, i, body) && i + |body| <= |lines| && lines[i + |body|..] == rest
  {
    forall m | 0 <= m < |body| ensures lines[i + m] == body[m] {
      assert lines[i + m] == lines[i..][m];
    }
    assert lines[i + |body|..] == lines[i..][|body|..];
  }

  /** Header lines, each followed by its block of sequence lines. */
  function Layout(hs: seq<string>, bodies: seq<seq<string>>): seq<string>
    requires |hs| == |bodies|
    decreases |hs|
  {
    if |hs| == 0 then [] else [hs[0]] + bodies[0] + Layout(hs[1..], bodies[1..])
  }

  /** The line indices of the header lines of a layout starting at line `i`, and its end. */
  function Offsets(bodies: seq<seq<string>>, i: nat): (r: seq<nat>)
    ensures |r| == |bodies| + 1 && r[0] == i
    decreases |bodies|
  {
    if |bodies| == 0 then [i] else [i] + Offsets(bodies[1..], i + 1 + |bodies[0]|)
  }

  /** Header line `h` sits at line `s`, its block `body` after it, up to line `t`. */
  predicate LinePlaced(lines: seq<string>, s: nat, h: string, body: seq<string>, t: nat) {
    s < |lines| && lines[s] == h && RunAt(lines, s + 1, body) && t == s + 1 + |body|
  }

  /** Every block of a layout sits at its offset. */
  lemma {:induction false} LayoutPlaced(lines: seq<string>, i: nat, hs: seq<string>, bodies: seq<seq<string>>)
    requires |hs| == |bodies| && i <= |lines| && lines[i..] == Layout(hs, bodies)
    ensures var at := Offsets(bodies, i);
            at[|hs|] == |lines| && forall k :: 0 <= k < |hs| ==> LinePlaced(lines, at[k], hs[k], bodies[k], at[k + 1])
    decreases |hs|
  {
    var at := Offsets(bodies, i);
    if |hs| > 0 {
      var j := i + 1 + |bodies[0]|;
      var rest := Layout(hs[1..], bodies[1..]);
      assert lines[i..] == [hs[0]] + (bodies[0] + rest);
      PrefixRun(lines, i + 1, bodies[0], rest) by {
        assert lines[i + 1..] == lines[i..][1..];
      }
      assert lines[i] == lines[i..][0];
      LayoutPlaced(lines, j, hs[1..], bodies[1..]);
      var tail := Offsets(bodies[1..], j);
      assert at == [i] + tail;
      forall k | 0 <= k < |hs| ensures LinePlaced(lines, at[k], hs[k], bodies[k], at[k + 1]) {
        if k > 0 {
          assert at[k] == tail[k - 1] && at[k + 1] == tail[k];
          assert hs[k] == hs[1..][k - 1] && bodies[k] == bodies[1..][k - 1];
        }
      }
    }
  }

  /** A block made of sequence lines only. */
  predicate SequenceBlock(body: seq<string>) {
    forall m :: 0 <= m < |body| ==> SequenceLine(body[m])
  }

  /** Header `h` sits at classified line `s`, the non-header lines `body` after it, up to line `t`. */
  predicate Placed(ls: seq<Line>, s: nat, h: string, body: seq<string>, t: nat) {
    s < |ls| && ls[s] == Line(h, true) && BodyAt(ls, s + 1, body) && t == s + 1 + |body|
  }

  /** A header line and its sequence lines, as `next` classifies them. */
  lemma PlacedClassified(lines: seq<string>, s: nat, h: string, body: seq<string>, t: nat)
    requires LinePlaced(lines, s, h, body, t) && HeaderLine(h) && SequenceBlock(body)
    ensures Placed(Classified(lines), s, h, body, t)
  {
    ClassifyLines(h);
    ClassifiedRun(lines, s + 1, body);
  }

  /** One call of `next` after a header line: its sequence lines, then a header line or the end. */
  lemma ReadStep(ls: seq<Line>, i: nat, h: string, body: seq<string>)
    requires BodyAt(ls, i, body) && |h| > 0 && (i + |body| == |ls| || ls[i + |body|].isHeader)
    ensures i + |body| == |ls| ==> ReadAllFrom(ls, i, h) == [(h, Concat(body))]
    ensures i + |body| < |ls| ==>
              ReadAllFrom(ls, i, h) == [(h, Concat(body))] + ReadAllFrom(ls, i + |body| + 1, ls[i + |body|].text)
  {
    ScanBody(ls, i, body, h, "");
    assert "" + Concat(body) == Concat(body);
    if i + |body| == |ls| {
      ScanEnd(ls, h, Concat(body));
    } else {
      ScanHeader(ls, i + |body|, h, Concat(body));
    }
  }

  /** Each header line with the sequence its block spells. */
  function Pairs(hs: seq<string>, bodies: seq<seq<string>>): (r: seq<(string, string)>)
    requires |hs| == |bodies|
    ensures |r| == |hs| && forall k :: 0 <= k < |hs| ==> r[k] == (hs[k], Concat(bodies[k]))
  {
    seq(|hs|, k requires 0 <= k < |hs| => (hs[k], Concat(bodies[k])))
  }

  /** A chain of values each made of `p`'s next element and the following value spells `p` from `k` on. */
  lemma {:induction false} ChainSuffix<T>(R: nat -> seq<T>, p: seq<T>, k: nat)
    requires k < |p| && R(|p| - 1) == [p[|p| - 1]]
    requires forall m :: k <= m < |p| - 1 ==> R(m) == [p[m]] + R(m + 1)
    ensures R(k) == p[k..]
    decreases |p| - k
  {
    if k < |p| - 1 {
      ChainSuffix(R, p, k + 1);
    }
    assert p[k..] == [p[k]] + p[k + 1..];
  }

  /** What the reader reads from the line after the `m`th header line (nothing past the last block). */
  function ReadsFrom(ls: seq<Line>, at: seq<nat>, hs: seq<string>, m: nat): seq<(string, string)> {
    if m < |hs| && m < |at| && at[m] + 1 <= |ls| then ReadAllFrom(ls, at[m] + 1, hs[m]) else []
  }

  /** Block `m` is read as its pair, followed by what is read after the next header line. */
  lemma ReadsFromStep(ls: seq<Line>, at: seq<nat>, hs: seq<string>, bodies: seq<seq<string>>, m: nat)
    requires |hs| == |bodies| && |at| == |hs| + 1 && m + 1 < |hs| && |hs[m]| > 0
    requires BodyAt(ls, at[m] + 1, bodies[m]) && at[m + 1] == at[m] + 1 + |bodies[m]|
    requires at[m + 1] < |ls| && ls[at[m + 1]] == Line(hs[m + 1], true)
    ensures ReadsFrom(ls, at, hs, m) == [(hs[m], Concat(bodies[m]))] + ReadsFrom(ls, at, hs, m + 1)
  {
    ReadStep(ls, at[m] + 1, hs[m], bodies[m]);
  }

  /** Every block but the last is read as its pair, followed by what is read after the next header line. */
  lemma ReadsFromSteps(ls: seq<Line>, at: seq<nat>, hs: seq<string>, bodies: seq<seq<string>>)
    requires |hs| == |bodies| && |at| == |hs| + 1 && forall m :: 0 <= m < |hs| ==> |hs[m]| > 0
    requires forall m {:trigger Placed(ls, at[m], hs[m], bodies[m], at[m + 1])} ::
               0 <= m < |hs| ==> Placed(ls, at[m], hs[m], bodies[m], at[m + 1])
    ensures forall m :: 0 <= m < |hs| - 1 ==>
              ReadsFrom(ls, at, hs, m) == [(hs[m], Concat(bodies[m]))] + ReadsFrom(ls, at, hs, m + 1)
  {
    forall m | 0 <= m < |hs| - 1
      ensures ReadsFrom(ls, at, hs, m) == [(hs[m], Concat(bodies[m]))] + ReadsFrom(ls, at, hs, m + 1)
    {
      assert Placed(ls, at[m], hs[m], bodies[m], at[m + 1]);
      var n := m + 1;
      assert Placed(ls, at[n], hs[n], bodies[n], at[n + 1]);
      ReadsFromStep(ls, at, hs, bodies, m);
    }
  }

  /** The last block is read as its pair, and the reader is at the end of the input. */
  lemma ReadsFromLast(ls: seq<Line>, s: nat, h: string, body: seq<string>)
    requires Placed(ls, s, h, body, |ls|) && |h| > 0
    ensures ReadAllFrom(ls, s + 1, h) == [(h, Concat(body))]
  {
    ReadStep(ls, s + 1, h, body);
  }

  /** Reading from the line after the first header line gives every block's pair, in order. */
  lemma ReadPlaced(ls: seq<Line>, at: seq<nat>, hs: seq<string>, bodies: seq<seq<string>>)
    requires |hs| == |bodies| && |at| == |hs| + 1 && 0 < |hs| && at[|hs|] == |ls|
    requires forall m :: 0 <= m < |hs| ==> |hs[m]| > 0
    requires forall m {:trigger Placed(ls, at[m], hs[m], bodies[m], at[m + 1])} ::
               0 <= m < |hs| ==> Placed(ls, at[m], hs[m], bodies[m], at[m + 1])
    ensures at[0] + 1 <= |ls| && ReadAllFrom(ls, at[0] + 1, hs[0]) == Pairs(hs, bodies)
  {
    var p := Pairs(hs, bodies);
    ReadsFromSteps(ls, at, hs, bodies);
    var l := |hs| - 1;
    assert Placed(ls, at[l], hs[l], bodies[l], at[l + 1]);
    ReadsFromLast(ls, at[l], hs[l], bodies[l]);
    ChainSuffix(m => ReadsFrom(ls, at, hs, m), p, 0);
    assert p[0..] == p;
  }

  function Heads(es: seq<Entry<FastaPlain.Plain>>): (r: seq<string>)
    ensures |r| == |es| && forall k :: 0 <= k < |es| ==> r[k] == FastaPlain.Display(es[k].header)
  {
    seq(|es|, k requires 0 <= k < |es| => FastaPlain.Display(es[k].header))
  }

  function Bodies(es: seq<Entry<FastaPlain.Plain>>): (r: seq<seq<string>>)
    ensures |r| == |es| && forall k :: 0 <= k < |es| ==> r[k] == SequenceLines(es[k].sequence)
  {
    seq(|es|, k requires 0 <= k < |es| => SequenceLines(es[k].sequence))
  }

  /** The file's lines are the layout of its header lines and sequence blocks. */
  lemma {:induction false} FileLinesLayout(es: seq<Entry<FastaPlain.Plain>>)
    ensures FileLines(es) == Layout(Heads(es), Bodies(es))
    decreases |es|
  {
    if |es| > 0 {
      FileLinesLayout(es[1..]);
      assert Heads(es)[1..] == Heads(es[1..]);
      assert Bodies(es)[1..] == Bodies(es[1..]);
    }
  }

  /** A new reader on the file's lines hands over every entry's header line and sequence, in order. */
  lemma ReadFile(es: seq<Entry<FastaPlain.Plain>>)
    requires |es| > 0 && WellFormedEntries(es)
    ensures ReadAll(FileLines(es)) == Raws(es)
  {
    var lines := FileLines(es);
    var hs := Heads(es);
    var bodies := Bodies(es);
    FileLinesLayout(es);
    forall m | 0 <= m < |es| ensures HeaderLine(hs[m]) && SequenceBlock(bodies[m]) && Concat(bodies[m]) == es[m].sequence {
      assert WellFormedEntry(es[m]);
      SequenceLinesRead(es[m].sequence);
    }
    ReadLayout(lines, hs, bodies);
    assert Pairs(hs, bodies) == Raws(es);
  }

  /** Reading a layout from its first line gives all its pairs. */
  lemma ReadLayout(lines: seq<string>, hs: seq<string>, bodies: seq<seq<string>>)
    requires |hs| == |bodies| && |hs| > 0 && lines == Layout(hs, bodies)
    requires forall m :: 0 <= m < |hs| ==> HeaderLine(hs[m]) && SequenceBlock(bodies[m])
    ensures ReadAll(lines) == Pairs(hs, bodies)
  {
    assert lines[0..] == lines;
    LayoutPlaced(lines, 0, hs, bodies);
    ReadFromStart(lines, Offsets(bodies, 0), hs, bodies);
  }

  /** The classified layout, read from its first line, gives all its pairs. */
  lemma ReadFromStart(lines: seq<string>, at: seq<nat>, hs: seq<string>, bodies: seq<seq<string>>)
    requires |hs| == |bodies| && |at| == |hs| + 1 && |hs| > 0 && at[0] == 0 && at[|hs|] == |lines|
    requires forall m :: 0 <= m < |hs| ==> HeaderLine(hs[m]) && SequenceBlock(bodies[m])
    requires forall m {:trigger LinePlaced(lines, at[m], hs[m], bodies[m], at[m + 1])} ::
               0 <= m < |hs| ==> LinePlaced(lines, at[m], hs[m], bodies[m], at[m + 1])
    ensures ReadAll(lines) == Pairs(hs, bodies)
  {
    var ls := Classified(lines);
    forall m | 0 <= m < |hs| ensures |hs[m]| > 0 && Placed(ls, at[m], hs[m], bodies[m], at[m + 1]) {
      assert LinePlaced(lines, at[m], hs[m], bodies[m], at[m + 1]);
      PlacedClassified(lines, at[m], hs[m], bodies[m], at[m + 1]);
    }
    var m := 0;
    assert LinePlaced(lines, at[m], hs[m], bodies[m], at[m + 1]);
    FirstHeaderStored(lines, "");
    ReadPlaced(ls, at, hs, bodies);
  }

  /**
    Writing well-formed entries and reading the text back, keeping the header
    lines, gives the same entries in the same order.
   */
  lemma WriteThenRead(es: seq<Entry<FastaPlain.Plain>>)
    requires |es| > 0 && WellFormedEntries(es)
    ensures var lines := Lines(AllText(es, FastaPlain.Display));
            lines == FileLines(es) && Readable(lines) && |Entries(lines, true)| == |es|
            && forall k :: 0 <= k < |es| ==> AsPlain(Entries(lines, true)[k]) == es[k]
  {
    AllTextLines(es);
    FileLinesNoNewline(es);
    LinesUnlines(FileLines(es));
    var lines := FileLines(es);
    ReadFile(es);
    assert Readable(lines) by {
      forall k | 0 <= k < |ReadAll(lines)| ensures FastaUniProt.Decodable(ReadAll(lines)[k].0) {
        assert ReadAll(lines)[k].0 == FastaPlain.Display(es[k].header);
      }
    }
    forall k | 0 <= k < |es| ensures AsPlain(Entries(lines, true)[k]) == es[k] {
      var s := es[k].sequence;
      assert '\n' !in s by {
        forall i | 0 <= i < |s| ensures s[i] != '\n' {
          assert !IsWhitespace(s[i]);
        }
      }
      RemoveCharAbsent(s, '\n');
      assert Entries(lines, true)[k] == EntryOf(FastaPlain.Display(es[k].header), s, true);
    }
  }

  /** The entries with plain headers made from entries that kept their header lines. */
  function PlainEntries(fes: seq<FastaEntry>): (r: seq<Entry<FastaPlain.Plain>>)
    requires forall k :: 0 <= k < |fes| ==> fes[k].plainHeader.Some?
    ensures |r| == |fes| && forall k :: 0 <= k < |fes| ==> r[k] == AsPlain(fes[k])
  {
    seq(|fes|, k requires 0 <= k < |fes| => AsPlain(fes[k]))
  }

  /**
    A file in the writer's layout, read with the header lines kept and written
    back with plain headers, is the same text.
   */
  lemma ReadThenWrite(es: seq<Entry<FastaPlain.Plain>>)
    requires |es| > 0 && WellFormedEntries(es)
    ensures var lines := FileLines(es);
            Readable(lines)
            && (forall k :: 0 <= k < |Entries(lines, true)| ==> Entries(lines, true)[k].plainHeader.Some?)
            && AllText(PlainEntries(Entries(lines, true)), FastaPlain.Display) == Unlines(lines)
  {
    WriteThenRead(es);
    var lines := FileLines(es);
    assert PlainEntries(Entries(lines, true)) == es;
    AllTextLines(es);
  }
}
