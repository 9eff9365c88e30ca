/**
  A FASTA entry (`fasta/entry.rs`): a header of any header type and the amino
  acid sequence. It is a value: there are no mutators, so an entry never
  changes after construction.
 */
module FastaEntries {

  datatype Entry<H> = Entry(header: H, sequence: string)

  /** `Entry::new`: the header and the sequence are stored unchanged. */
  function New<H>(header: H, sequence: string): (e: Entry<H>)
    ensures GetHeader(e) == header && GetSequence(e) == sequence
  {
    Entry(header, sequence)
  }

  /** `get_sequence`: the stored sequence, newlines and all. */
  function GetSequence<H>(e: Entry<H>): string {
    e.sequence
  }

  /** `get_header`: the stored header. */
  function GetHeader<H>(e: Entry<H>): H {
    e.header
  }

  /** An entry is determined by what its getters return. */
  lemma NewOfGetters<H>(e: Entry<H>)
    ensures New(GetHeader(e), GetSequence(e)) == e
  {
  }
}
