/**
  The FASTA writer (`fasta/writer.rs`): each entry is written as its header's
  display, a newline, the sequence wrapped at 60 characters per line, and a
  newline. The writer is generic over the header type; the `Header` bound's
  `Display` is the function `display` the writer is made with. The sink is the
  text written so far, and the byte counts are the UTF-8 lengths of what each
  call appends.
 */
module FastaWriting {
  import opened Text
  import opened FastaEntries

  /** `MAX_AMINO_ACIDS_PER_LINE` */
  const MaxAminoAcidsPerLine: nat := 60

  /**
    `chunks(n)` on the characters of `s`: pieces of `n` characters, the last
    one shorter when `n` does not divide the length; no piece for `""`.
   */
  function Chunks(s: string, n: nat): (r: seq<string>)
    requires n > 0
    ensures Concat(r) == s
    ensures forall k :: 0 <= k < |r| ==> 0 < |r[k]| <= n
    ensures forall k :: 0 <= k < |r| - 1 ==> |r[k]| == n
    decreases |s|
  {
    if |s| == 0 then []
    else if |s| <= n then
      assert Concat([s]) == s + Concat([]);
      [s]
    else
      var rest := Chunks(s[n..], n);
      assert ([s[..n]] + rest)[1..] == rest;
      assert s[..n] + s[n..] == s;
      [s[..n]] + rest
  }

  /** `format_sequence`: the chunks of 60, joined by '\n'. */
  function FormatSequence(sequence: string): string {
    Join(Chunks(sequence, MaxAminoAcidsPerLine), "\n")
  }

  // ---------------------------------------------------------------------------
  // Laws of the wrapping

  /** The number of lines is the length divided by 60, rounded up. */
  lemma {:induction false} ChunkCount(s: string)
    ensures |Chunks(s, MaxAminoAcidsPerLine)| == (|s| + 59) / 60
    decreases |s|
  {
    if |s| > MaxAminoAcidsPerLine {
      ChunkCount(s[MaxAminoAcidsPerLine..]);
    }
  }

  /** Every character of every chunk satisfies what every character of `s` does. */
  lemma {:induction false} ChunksKeep(s: string, n: nat, p: char -> bool)
    requires n > 0 && forall i :: 0 <= i < |s| ==> p(s[i])
    ensures forall k, i :: 0 <= k < |Chunks(s, n)| && 0 <= i < |Chunks(s, n)[k]| ==> p(Chunks(s, n)[k][i])
    decreases |s|
  {
    if |s| > n {
      var r := Chunks(s, n);
      ChunksKeep(s[n..], n, p);
      forall k, i | 0 <= k < |r| && 0 <= i < |r[k]| ensures p(r[k][i]) {
        if k == 0 {
          assert r[k][i] == s[i];
        } else {
          assert r[k] == Chunks(s[n..], n)[k - 1];
        }
      }
    }
  }

  /** Pieces of exactly `n` characters, the last one of 1 to `n`, are the chunks of their concatenation. */
  lemma {:induction false} ChunksOfPieces(ls: seq<string>, n: nat)
    requires n > 0 && |ls| > 0
    requires forall k :: 0 <= k < |ls| - 1 ==> |ls[k]| == n
    requires 0 < |ls[|ls| - 1]| <= n
    ensures Chunks(Concat(ls), n) == ls
    decreases |ls|
  {
    if |ls| == 1 {
      assert ls[1..] == [];
      assert Concat(ls) == ls[0];
    } else {
      ChunksOfPieces(ls[1..], n);
      var rest := Concat(ls[1..]);
      assert |Chunks(rest, n)| > 0;
      assert Concat(ls) == ls[0] + rest;
      assert Concat(ls)[..n] == ls[0] && Concat(ls)[n..] == rest;
      assert ls == [ls[0]] + ls[1..];
    }
  }

  /** Removing the line breaks of a formatted sequence gives the sequence back. */
  lemma FormatUnwraps(s: string)
    requires '\n' !in s
    ensures RemoveChar(FormatSequence(s), '\n') == s
  {
    var r := Chunks(s, MaxAminoAcidsPerLine);
    ChunksKeep(s, MaxAminoAcidsPerLine, c => c != '\n');
    forall k | 0 <= k < |r| ensures '\n' !in r[k] {
      forall i | 0 <= i < |r[k]| ensures r[k][i] != '\n' {
      }
    }
    RemoveNewlinesJoin(r);
  }

  /**
    The lines of a formatted sequence are its chunks: every line but the last
    has 60 characters, the last 1 to 60, and there are ⌈|s| / 60⌉ of them.
   */
  lemma FormatLines(s: string)
    requires '\n' !in s && |s| > 0
    ensures var ls := Split(FormatSequence(s), '\n');
            ls == Chunks(s, MaxAminoAcidsPerLine)
            && |ls| == (|s| + 59) / 60
            && (forall k :: 0 <= k < |ls| - 1 ==> |ls[k]| == MaxAminoAcidsPerLine)
            && 0 < |ls[|ls| - 1]| <= MaxAminoAcidsPerLine
  {
    var r := Chunks(s, MaxAminoAcidsPerLine);
    ChunksKeep(s, MaxAminoAcidsPerLine, c => c != '\n');
    forall k | 0 <= k < |r| ensures '\n' !in r[k] {
      forall i | 0 <= i < |r[k]| ensures r[k][i] != '\n' {
      }
    }
    ChunkCount(s);
    SplitJoin(r, '\n');
  }

  /** An empty sequence is formatted as nothing at all. */
  lemma FormatEmpty()
    ensures FormatSequence("") == ""
  {
  }

  // ---------------------------------------------------------------------------
  // The writer

  /** What `write_entry` appends: `{header}\n{formatted sequence}\n`. */
  function EntryText<H>(e: Entry<H>, display: H -> string): string {
    display(GetHeader(e)) + "\n" + FormatSequence(GetSequence(e)) + "\n"
  }

  /** What `write_all` appends: the entries' texts in order. */
  function AllText<H>(es: seq<Entry<H>>, display: H -> string): string
    decreases |es|
  {
    if |es| == 0 then "" else EntryText(es[0], display) + AllText(es[1..], display)
  }

  /** The sum of the byte counts of the entries' texts. */
  function TotalBytes<H>(es: seq<Entry<H>>, display: H -> string): nat
    decreases |es|
  {
    if |es| == 0 then 0 else Utf8Len(EntryText(es[0], display)) + TotalBytes(es[1..], display)
  }

  lemma {:induction false} AllTextSnoc<H>(es: seq<Entry<H>>, e: Entry<H>, display: H -> string)
    ensures AllText(es + [e], display) == AllText(es, display) + EntryText(e, display)
    ensures TotalBytes(es + [e], display) == TotalBytes(es, display) + Utf8Len(EntryText(e, display))
    decreases |es|
  {
    if |es| == 0 {
      assert es + [e] == [e];
      assert AllText([e], display) == EntryText(e, display) + AllText([], display);
    } else {
      assert (es + [e])[1..] == es[1..] + [e];
      AllTextSnoc(es[1..], e, display);
    }
  }

  /** The byte count of all the entries is the sum of theirs. */
  lemma {:induction false} AllTextBytes<H>(es: seq<Entry<H>>, display: H -> string)
    ensures Utf8Len(AllText(es, display)) == TotalBytes(es, display)
    decreases |es|
  {
    if |es| > 0 {
      AllTextBytes(es[1..], display);
      Utf8LenAppend(EntryText(es[0], display), AllText(es[1..], display));
    }
  }

  class FastaWriter<H> {
    var out: string
    const display: H -> string

    constructor (display: H -> string)
      ensures out == "" && this.display == display
    {
      out := "";
      this.display := display;
    }

    /** `write_entry`: one `write` of the formatted entry; returns its byte count. */
    method WriteEntry(entry: Entry<H>) returns (written: nat)
      modifies this
      ensures out == old(out) + EntryText(entry, display)
      ensures written == Utf8Len(EntryText(entry, display))
    {
      var text := display(GetHeader(entry)) + "\n" + FormatSequence(GetSequence(entry)) + "\n";
      out := out + text;
      written := Utf8Len(text);
    }

    /** `write_all`: the entries in order; returns the sum of the byte counts. */
    method WriteAll(entries: seq<Entry<H>>) returns (written: nat)
      modifies this
      ensures out == old(out) + AllText(entries, display)
      ensures written == TotalBytes(entries, display) == Utf8Len(AllText(entries, display))
    {
      ghost var start := out;
      written := 0;
      var k := 0;
      assert entries[..k] == [];
      while k < |entries|
        invariant 0 <= k <= |entries|
        invariant out == start + AllText(entries[..k], display)
        invariant written == TotalBytes(entries[..k], display)
      {
        var n := WriteEntry(entries[k]);
        AllTextSnoc(entries[..k], entries[k], display);
        assert entries[..k + 1] == entries[..k] + [entries[k]];
        written := written + n;
        k := k + 1;
      }
      assert entries[..k] == entries;
      AllTextBytes(entries, display);
    }
  }
}
