/**
  The plain FASTA header (`fasta/headers/plain.rs`): the header line kept as
  it is read, leading `>` included. `Header::new`, `get_header` and `Display`
  are the identity on that text.
 */
module FastaPlain {
  import opened Text

  datatype Plain = Plain(header: string)

  /** `Header::new`: the text is stored unchanged. */
  function New(header: string): (p: Plain)
    ensures GetHeader(p) == header && Display(p) == header
  {
    Plain(header)
  }

  /** `get_header`: the stored text. */
  function GetHeader(p: Plain): string {
    p.header
  }

  /** `Display`: the stored text, with nothing added. */
  function Display(p: Plain): string {
    p.header
  }

  /** The other direction: a plain header is rebuilt from its display. */
  lemma NewOfDisplay(p: Plain)
    ensures New(Display(p)) == p && New(GetHeader(p)) == p
  {
  }
}
