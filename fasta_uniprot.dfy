/**
  The UniProt FASTA header (`fasta/headers/uniprot.rs`):
  `>db|accession|entry_name protein name words KEY=value words KEY=value …`.

  Decoding splits the header on `|`, takes the database (without its first
  character) and the accession from the first two pieces, and splits the third
  on single spaces. The first token is the entry name, the following tokens up
  to the first one holding `=` form the protein name, and from there every token
  holding `=` starts a new keyword attribute whose value runs on over the tokens
  without `=`.

  The header decoder of `fasta/reader.rs` (`create_entry`) is the same code,
  token for token; it is modelled once, here, and the reader calls it.
 */
module FastaUniProt {
  import opened Text
  import opened Sorting

  datatype UniProt = UniProt(
    database: string,
    accession: string,
    entryName: string,
    proteinName: string,
    keywordAttributes: map<string, string>)

  // ---------------------------------------------------------------------------
  // Decoding

  /**
    `prep_and_add_attribute_to_keyword_attributes`: `raw` split on `=`; a first
    and a second piece become a key and its value (anything after a second `=`
    is dropped), and a text without `=` adds nothing.
   */
  function PrepAndAddAttribute(raw: string, attrs: map<string, string>): (r: map<string, string>)
    ensures '=' !in raw ==> r == attrs
    ensures '=' in raw ==>
      var key := UntilChar(raw, '=');
      r == attrs[key := UntilChar(raw[|key| + 1..], '=')]
  {
    var parts := Split(raw, '=');
    SplitSecond(raw, '=');
    if |parts| >= 2 then attrs[parts[0] := parts[1]] else attrs
  }

  /** Some token at `from` or later holds `=`. */
  predicate HasAttribute(ts: seq<string>, from: nat) {
    exists k :: from <= k < |ts| && '=' in ts[k]
  }

  /** The first token at `from` or later that holds `=`. */
  function FirstAttribute(ts: seq<string>, from: nat): (e: nat)
    requires HasAttribute(ts, from)
    ensures from <= e < |ts| && '=' in ts[e]
    ensures forall k :: from <= k < e ==> '=' !in ts[k]
    decreases |ts| - from
  {
    if '=' in ts[from] then from else FirstAttribute(ts, from + 1)
  }

  /**
    The headers `internal_new` decodes without panicking or looping forever:
    at least three `|` pieces, a first piece whose first character is one byte
    long (it is cut off at byte 1), and a token holding `=` somewhere after the
    protein name's first token (the protein-name loop spins for ever otherwise).
   */
  predicate Decodable(header: string) {
    var parts := Split(header, '|');
    |parts| >= 3 && |parts[0]| > 0 && Utf8Width(parts[0][0]) == 1
    && HasAttribute(Split(parts[2], ' '), 2)
  }

  /**
    The raw attribute texts the attribute loop hands to the helper, in order:
    `current` is the text being gathered, a token without `=` is appended to it
    after a space, and a token with `=` hands it over and starts the next one.
   */
  function Groups(current: string, ts: seq<string>): seq<string>
    decreases |ts|
  {
    if |ts| == 0 then [current]
    else if '=' !in ts[0] then Groups(current + " " + ts[0], ts[1..])
    else [current] + Groups(ts[0], ts[1..])
  }

  /** The helper applied to each raw text in turn. */
  function AddAll(raws: seq<string>, attrs: map<string, string>): map<string, string>
    decreases |raws|
  {
    if |raws| == 0 then attrs else AddAll(raws[1..], PrepAndAddAttribute(raws[0], attrs))
  }

  /** The keyword attributes of the tokens from the first one holding `=`. */
  function Attributes(ts: seq<string>): map<string, string> {
    if |ts| == 0 then map[] else AddAll(Groups("", ts), map[])
  }

  /** What `internal_new` builds from a header. */
  function Decode(header: string): UniProt
    requires Decodable(header)
  {
    var parts := Split(header, '|');
    var ts := Split(parts[2], ' ');
    var e := FirstAttribute(ts, 2);
    UniProt(parts[0][1..], parts[1], ts[0], Join(ts[1..e], " "), Attributes(ts[e..]))
  }

  /**
    `internal_new` (and `Header::new`): the `|` pieces and the space tokens are
    consumed from the front, as the `remove(0)` calls do, the protein name
    grows up to the first token with `=`, and the attributes are gathered token
    by token.
   */
  method InternalNew(header: string) returns (u: UniProt)
    requires Decodable(header)
    ensures u == Decode(header)
  {
    var headerSplit := Split(header, '|');
    var database := headerSplit[0];
    headerSplit := headerSplit[1..];
    database := database[1..];
    var accession := headerSplit[0];
    headerSplit := headerSplit[1..];

    var tokens := Split(headerSplit[0], ' ');
    ghost var ts := tokens;
    ghost var e := FirstAttribute(ts, 2);
    var entryName := tokens[0];
    tokens := tokens[1..];
    var proteinName := tokens[0];
    tokens := tokens[1..];
    assert ts[1..2] == [ts[1]];
    while true
      invariant 2 <= |ts| - |tokens| <= e && tokens == ts[|ts| - |tokens|..]
      invariant proteinName == Join(ts[1..|ts| - |tokens|], " ")
      decreases |tokens|
    {
      ghost var i := |ts| - |tokens|;
      if '=' !in tokens[0] {
        assert ts[i] == tokens[0] && i < e;
        assert ts[1..i + 1] == ts[1..i] + [ts[i]];
        JoinAppend(ts[1..i], [ts[i]], " ");
        proteinName := proteinName + " " + tokens[0];
        tokens := tokens[1..];
      } else {
        assert i == e;
        break;
      }
    }

    var attrs: map<string, string> := map[];
    if |tokens| > 0 {
      var current := "";
      while |tokens| > 0
        invariant AddAll(Groups(current, tokens), attrs) == Attributes(ts[e..])
        decreases |tokens|
      {
        if '=' !in tokens[0] {
          current := current + " " + tokens[0];
          tokens := tokens[1..];
        } else {
          assert ([current] + Groups(tokens[0], tokens[1..]))[1..] == Groups(tokens[0], tokens[1..]);
          attrs := PrepAndAddAttribute(current, attrs);
          if |tokens| > 0 {
            current := tokens[0];
            tokens := tokens[1..];
          }
        }
      }
      attrs := PrepAndAddAttribute(current, attrs);
    }
    u := UniProt(database, accession, entryName, proteinName, attrs);
  }

  // ---------------------------------------------------------------------------
  // Encoding

  /**
    An order in which a `HashMap` may hand out the keys of `attrs`: each key once.
    Rust leaves that order unspecified, so it is a parameter of the encoder.
   */
  predicate IsListing(order: seq<string>, attrs: map<string, string>) {
    (forall i, j :: 0 <= i < j < |order| ==> order[i] != order[j])
    && (forall k :: k in order ==> k in attrs) && (forall k :: k in attrs ==> k in order)
  }

  /** The `key=value` items for the keys of `order`. */
  function Items(attrs: map<string, string>, order: seq<string>): (r: seq<string>)
    requires forall k :: k in order ==> k in attrs
    ensures |r| == |order|
    decreases |order|
  {
    if |order| == 0 then [] else [order[0] + "=" + attrs[order[0]]] + Items(attrs, order[1..])
  }

  /**
    `keyword_attributes_to_string`: the items, in the map's order or, in a test
    build, sorted, joined by single spaces; the empty text for an empty map.
   */
  function KeywordAttributesToString(attrs: map<string, string>, order: seq<string>, testBuild: bool): string
    requires IsListing(order, attrs)
  {
    if |attrs| > 0 then
      var items := Items(attrs, order);
      Join(if testBuild then Sort(items) else items, " ")
    else ""
  }

  /** `Display`: `>{database}|{accession}|{entry_name} {protein_name} {attributes}`. */
  function Display(u: UniProt, order: seq<string>, testBuild: bool): string
    requires IsListing(order, u.keywordAttributes)
  {
    ">" + u.database + "|" + u.accession + "|" + u.entryName + " " + u.proteinName + " "
    + KeywordAttributesToString(u.keywordAttributes, order, testBuild)
  }
}
