/**
  The FASTA reader (`fasta/reader.rs`). `FastaReader::next` reads lines, trims
  them, appends the lines that do not start with `>` to the sequence, and at
  the next `>` line hands the pending header and the sequence to
  `create_entry`, keeping the new line as the pending header. At the end of
  the input it hands over the last header and sets `is_eof`; every later call
  gives `None`.

  The input is the sequence of lines `read_line` returns, each without its
  '\n'. `create_entry` decodes the header with the same code as the UniProt
  header; it calls the one model of it, `FastaUniProt.InternalNew`.
 */
module FastaReading {
  import opened Base
  import opened Text
  import opened FastaUniProt

  /**
    The record `create_entry` builds. Its type is the historical `FastaEntry`
    with the UniProt fields, the sequence and the header line when it is kept.
   */
  datatype FastaEntry = FastaEntry(
    database: string,
    accession: string,
    entryName: string,
    proteinName: string,
    keywordAttributes: map<string, string>,
    sequence: string,
    plainHeader: Option<string>)

  /**
    The entry for a header and a sequence: the header's UniProt fields, the
    sequence without its newlines, and the header itself exactly when it is
    to be kept.
   */
  function EntryOf(header: string, sequence: string, keepPlainHeader: bool): (e: FastaEntry)
    requires Decodable(header)
    ensures '\n' !in e.sequence
    ensures e.plainHeader.Some? <==> keepPlainHeader
    ensures keepPlainHeader ==> e.plainHeader == Some(header)
  {
    var u := Decode(header);
    FastaEntry(u.database, u.accession, u.entryName, u.proteinName, u.keywordAttributes,
               RemoveChar(sequence, '\n'), if keepPlainHeader then Some(header) else None)
  }

  /** `create_entry`: always `Some`; it panics on the headers `Decodable` excludes. */
  method CreateEntry(header: string, sequence: string, keepPlainHeader: bool) returns (r: Option<FastaEntry>)
    requires Decodable(header)
    ensures r == Some(EntryOf(header, sequence, keepPlainHeader))
  {
    var u := InternalNew(header);
    var plainHeaderOpt := if keepPlainHeader then Some(header) else None;
    r := Some(FastaEntry(u.database, u.accession, u.entryName, u.proteinName, u.keywordAttributes,
                         RemoveChar(sequence, '\n'), plainHeaderOpt));
  }

  /**
    What one call of `next` hands to `create_entry` (`header`, `sequence`),
    the next unread line, the header it keeps for the following call, and
    whether it reached the end of the input.
   */
  datatype Emission = Emission(header: string, sequence: string, next: nat, pending: string, eof: bool)

  /** A line as `next` sees it: trimmed, and whether it then starts with `>`. */
  datatype Line = Line(text: string, isHeader: bool)

  /** `line.trim()`, and `starts_with('>')` on the result. */
  function Classify(raw: string): Line {
    var t := Trim(raw);
    Line(t, StartsWith(t, ">"))
  }

  /** Every input line as `next` sees it. */
  function Classified(lines: seq<string>): (ls: seq<Line>)
    ensures |ls| == |lines| && forall i :: 0 <= i < |lines| ==> ls[i] == Classify(lines[i])
  {
    seq(|lines|, i requires 0 <= i < |lines| => Classify(lines[i]))
  }

  /**
    The loop of `next` from line `i` of the classified input, with `header`
    pending and `sequence` gathered so far.
   */
  function Scan(ls: seq<Line>, i: nat, header: string, sequence: string): (r: Emission)
    requires i <= |ls|
    ensures i <= r.next <= |ls|
    ensures r.eof ==> r.next == |ls| && r.pending == r.header
    ensures !r.eof ==> i < r.next && |r.header| > 0
    decreases |ls| - i
  {
    if i == |ls| then Emission(header, sequence, i, header, true)
    else if !ls[i].isHeader then Scan(ls, i + 1, header, sequence + ls[i].text)
    else if |header| > 0 then Emission(header, sequence, i + 1, ls[i].text, false)
    else Scan(ls, i + 1, ls[i].text, sequence)
  }

  /**
    The `(header, sequence)` pairs that successive calls of `next` hand to
    `create_entry`, from line `i` with `header` pending, up to the call that
    reaches the end of the input.
   */
  function ReadAllFrom(ls: seq<Line>, i: nat, header: string): (r: seq<(string, string)>)
    requires i <= |ls|
    ensures |r| > 0
    decreases |ls| - i
  {
    var s := Scan(ls, i, header, "");
    [(s.header, s.sequence)] + (if s.eof then [] else ReadAllFrom(ls, s.next, s.pending))
  }

  /** The pairs a new reader hands to `create_entry`. */
  function ReadAll(lines: seq<string>): seq<(string, string)> {
    ReadAllFrom(Classified(lines), 0, "")
  }

  /** An input none of whose headers makes `create_entry` panic. */
  predicate Readable(lines: seq<string>) {
    forall k :: 0 <= k < |ReadAll(lines)| ==> Decodable(ReadAll(lines)[k].0)
  }

  /** The entries collected from a new reader. */
  function Entries(lines: seq<string>, keepPlainHeader: bool): (r: seq<FastaEntry>)
    requires Readable(lines)
    ensures |r| == |ReadAll(lines)|
  {
    var raw := ReadAll(lines);
    seq(|raw|, k requires 0 <= k < |raw| => EntryOf(raw[k].0, raw[k].1, keepPlainHeader))
  }

  class FastaReader {
    var lines: seq<string>
    var pos: nat
    var keepPlainHeader: bool
    var isEof: bool
    var header: string
    var sequence: string

    ghost predicate Valid()
      reads this
    {
      pos <= |lines|
    }

    /** `FastaReader::new`: nothing read yet, no header pending. */
    constructor (lines: seq<string>, keepPlainHeader: bool)
      ensures Valid() && this.lines == lines && pos == 0 && this.keepPlainHeader == keepPlainHeader
      ensures !isEof && header == "" && sequence == ""
    {
      this.lines := lines;
      pos := 0;
      this.keepPlainHeader := keepPlainHeader;
      isEof := false;
      header := "";
      sequence := "";
    }

    /**
      `next`. The caller must not let it hand `create_entry` a header that
      makes it panic (at the end of an empty input, that is the empty header).
     */
    method Next() returns (r: Option<FastaEntry>)
      requires Valid() && (isEof || Decodable(Scan(Classified(lines), pos, header, "").header))
      modifies this
      ensures Valid() && lines == old(lines) && keepPlainHeader == old(keepPlainHeader)
      ensures old(isEof) ==> r == None && isEof && pos == old(pos) && header == old(header) && sequence == old(sequence)
      ensures !old(isEof) ==>
                var s := Scan(Classified(lines), old(pos), old(header), "");
                r == Some(EntryOf(s.header, s.sequence, keepPlainHeader))
                && pos == s.next && header == s.pending && sequence == s.sequence && isEof == s.eof
    {
      if isEof {
        return None;
      }
      sequence := "";
      ghost var ls := Classified(lines);
      while true
        invariant pos <= |lines| && lines == old(lines) && keepPlainHeader == old(keepPlainHeader) && !isEof
        invariant Scan(ls, old(pos), old(header), "") == Scan(ls, pos, header, sequence)
        decreases |lines| - pos
      {
        if pos == |lines| {
          isEof := true;
          r := CreateEntry(header, sequence, keepPlainHeader);
          return;
        }
        var line := Trim(lines[pos]);
        assert ls[pos] == Line(line, StartsWith(line, ">"));
        pos := pos + 1;
        if !StartsWith(line, ">") {
          sequence := sequence + line;
        } else if |header| > 0 {
          r := CreateEntry(header, sequence, keepPlainHeader);
          header := line;
          return;
        } else {
          header := line;
        }
      }
    }
  }
}
