# mzio in Dafny

A model of the three text codecs of the `mzio` proteomics library, with their
properties proved:

- **MSP.** There are two layers.
  - The PSM conversion. A peak annotation such as `y4-17^2/-0.02,IKC/0.12 1/2 0.5` is decoded into `Fragment` and `Sequence` values plus an optional "unknown" triple (`to_parsed_psm`). The parsed PSM is encoded back (`to_psm`).
  - The record stream. `MspReader::next` reads `Key: value` header lines and tab-separated peak lines up to a blank line. `MspWriter` writes records, with an empty line before every record but the first.
- **FASTA.** There are three parts.
  - The UniProt header codec (`internal_new`, `Display`).
  - The plain header and the generic entry.
  - The record stream. `FastaReader::next` pairs each header line with its trimmed, concatenated sequence lines, and `Writer` wraps sequences at 60 residues per line.
- **MGF.** `Reader::next` gathers one `BEGIN IONS … END IONS` block, and `create_spectrum` parses it. `MgfWriter` writes a block per spectrum. The spectrum header is a class whose precursor mass is set in place.

Every input file is the sequence of lines `read_line` returns, each without its `'\n'`. Every writer appends to a `string` field `out`, and every byte count is the UTF-8 length of what a call appends. Floating-point parsing (`fast_float::parse`) and float `Display` stay abstract:
- every codec receives them as a `Floats.FloatSyntax` parameter;
- the round-trip laws require that displaying then parsing gives the number back (`Floats.WellBehaved`).

The operations that loop or update state in place are methods, each proved equal to a specification function, and the properties are proved about those functions:
- the MSP annotation decoder: `DecodeTag`, `DecodeMatched`, `ToParsedPsm`;
- the three readers' `next`;
- the writers;
- `internal_new`;
- the MGF header's `set_precursor_mass` and `calc_precursor_mass`.

The main results are the file round trips:
- `MspFileLaws.WriteThenRead` / `ReadThenWrite`, together with the annotation round trip `MspPsmLaws.ParsedPsmRoundTrip`;
- `FastaFileLaws.WriteThenRead` / `ReadThenWrite`, together with `FastaUniProtLaws.DecodeDisplay`;
- `MgfFileLaws.WriteThenReadFixed` / `ReadThenWriteFixed`.

The MGF round trip does not hold for the code as written when a spectrum has a charge; see "## Findings".

Where the library's documentation and its code differ, the model follows the code:
- **MGF `PEPMASS=`.** The whole value after `PEPMASS=` goes to the float parser. It is not cut at the first word.
- **FASTA sequence lines before the first header.** These are not lost. The first call of `next` keeps them and hands them over as the start of the first entry's sequence (`FastaReaderLaws.LeadingLinesPrepended`).
- **MSP `eof_reached`.** This flag is a local of `next`, so the "second zero-byte read" branch can never be taken within one call. The model follows what `next` actually does: at the end of the input it ends the record, or returns `None`.

## Model

| member | source | states |
|---|---|---|
| MspPsmCodec.TakeDigitsShape | mzio-rs/src/msp/psm.rs:240-241 | `take_while(is_ascii_digit)` on the shared character iterator collects only digits and never runs past the end. It consumes exactly one character more than the run (the non-digit that stopped it) unless the text ends first |
| MspPsmCodec.TakeDigitsOf | mzio-rs/src/msp/psm.rs:247-256 | a digit run followed by more text is returned whole, and the character after it is swallowed. At the end of the text nothing more is consumed |
| MspPsmCodec.TakeDigitRun | mzio-rs/src/msp/psm.rs:240-241 | the character-by-character `take_while` loop returns the run and the iterator position the specification gives |
| MspPsmCodec.CreateMspPeak | mzio-rs/src/msp/psm.rs:298-332 | index, m/z, intensity and annotations are copied. The unknown triple is present exactly when a second and a third whitespace part exist. It fails exactly when its numerator, denominator or value does not parse |
| MspPsmCodec.DecodeTag | mzio-rs/src/msp/psm.rs:215-267 | the tag loop body (split at '/', error parsed first, digit test, ion type, index run, '-' and '^' runs, trailing-character `ensure!`, index parse) equals the tag specification |
| MspPsmCodec.DecodeMatched | mzio-rs/src/msp/psm.rs:210-271 | the loop over the ','-separated tags equals decoding the tags in order, stopping at the first failure |
| MspPsmCodec.ToParsedPsm | mzio-rs/src/msp/psm.rs:180-296 | the outer loop over the zipped lists, with its `peak_idx` counter, equals the specification of `to_parsed_psm` |
| MspPsmCodec.ToPsm | mzio-rs/src/msp/psm.rs:367-423 | the name is the sequence, '/' and the charge. `Num peaks` is the number of peaks. Mass and comment are copied. The k-th m/z, intensity and annotation are those of the k-th peak, and the annotation is that peak's encoding |
| MspPsmLaws.ParsedPsmFields | mzio-rs/src/msp/psm.rs:181-189 | a name without '/' is refused. Otherwise the sequence is the text before the first '/' and the charge is the `i8` between the first and second '/'. Mass and comment are copied, and the m/z comes from mass and charge |
| MspPsmLaws.PeakOfShape | mzio-rs/src/msp/psm.rs:323-329 | the peak decoded at position k has index k and the m/z and intensity at k |
| MspPsmLaws.PeaksFromShape | mzio-rs/src/msp/psm.rs:191-194 | decoding from position k gives one peak per remaining zipped position, numbered k, k+1, …, with m/z and intensity copied |
| MspPsmLaws.PeaksShape | mzio-rs/src/msp/psm.rs:274-285 | a decoded PSM has one peak per zipped position, with `peak_index` 0, 1, 2, … and m/z and intensity unchanged |
| MspPsmLaws.QuestionMarkPeak | mzio-rs/src/msp/psm.rs:207-208 | an annotation starting with '?' gives a peak with no annotations |
| MspPsmLaws.TagsFromInOrder | mzio-rs/src/msp/psm.rs:210-213 | decoding the tags succeeds exactly when every tag decodes. The j-th annotation is the decoding of the j-th tag |
| MspPsmLaws.SlashTag | mzio-rs/src/msp/psm.rs:219-225 | in `body/t`, the text after the first '/' is the m/z error, and the body is decoded with it |
| MspPsmLaws.FragmentExample | mzio-rs/src/msp/psm.rs:378 | `y4-17^2/-0.02` decodes to ion `y`, index 4, neutral loss 17, charge 2 and the parsed error |
| MspPsmLaws.SequenceExample | mzio-rs/src/msp/psm.rs:391 | `IKC/0.12` decodes to the sequence `IKC` with the parsed error |
| MspPsmLaws.SwallowedCharacter | mzio-rs/src/msp/psm.rs:240-258 | `y4a` decodes to the plain fragment `y4`. `take_while` swallows the `a`, so the trailing-character check sees nothing |
| MspPsmLaws.TrailingCharacter | mzio-rs/src/msp/psm.rs:257-258 | `y4ab`, without '-' or '^', fails the trailing-character check |
| MspPsmLaws.EmptyIndexRun | mzio-rs/src/msp/psm.rs:263 | an empty fragment-index run is an error, reported after the modifiers were read |
| MspPsmLaws.IndexNotInteger | mzio-rs/src/msp/psm.rs:261-267 | for any tag body whose index run is empty and whose modifiers decode, the index error is reported |
| MspPsmLaws.EmptyLossRun | mzio-rs/src/msp/psm.rs:246-248 | a '-' followed by an empty digit run is a neutral-loss error |
| MspPsmLaws.LossNotNumber | mzio-rs/src/msp/psm.rs:246-248 | for any tag body with a '-' whose loss run is empty, the neutral-loss error is reported |
| MspPsmLaws.OnlyLoss | mzio-rs/src/msp/psm.rs:246-249 | with a '-' and no '^', the neutral loss is the digit run after the index run, and there is no charge |
| MspPsmLaws.OnlyCharge | mzio-rs/src/msp/psm.rs:254-256 | with a '^' and no '-', the charge is the `i8` of the digit run after the index run, and there is no neutral loss |
| MspPsmLaws.LossThenCharge | mzio-rs/src/msp/psm.rs:246-253 | with both '-' and '^', the neutral loss and then the charge are the next two digit runs |
| MspPsmLaws.NegativeFragmentCharge | mzio-rs/src/msp/psm.rs:384-386 | a negative fragment charge is written `^-2`. Its '-' is then taken for the neutral-loss marker, so the tag is read back as a neutral-loss error |
| MspPsmLaws.DecimalLossMisread | mzio-rs/src/msp/psm.rs:246-253 | the text written for a neutral loss of 17.5 with charge 2, `y4-17.5^2`, is decoded without error as loss 17 and charge 5: each `take_while` swallows the character that stops it |
| MspPsmLaws.FragmentBodyRoundTrip | mzio-rs/src/msp/psm.rs:380-386 | the written body `{ion}{idx}[-{nl}][^{z}]` of a well-formed fragment decodes to that fragment |
| MspPsmLaws.SplitOffError | mzio-rs/src/msp/psm.rs:387-396 | a body followed by its written `/{err}` suffix decodes as the body with that error |
| MspPsmLaws.TagRoundTrip | mzio-rs/src/msp/psm.rs:375-400 | a written tag is one word that does not start with '?', and it decodes to its annotation |
| MspPsmLaws.TagsRoundTrip | mzio-rs/src/msp/psm.rs:404 | the tags written for a list of annotations decode to that list |
| MspPsmLaws.FirstPartRoundTrip | mzio-rs/src/msp/psm.rs:372-405 | the first whitespace part of a written annotation is `?` for no annotations, and otherwise the tags joined by ',' |
| MspPsmLaws.UnknownRoundTrip | mzio-rs/src/msp/psm.rs:407-410 | the written `n/d v` part is two words. The first splits at '/' back into the numerator's and denominator's digits, which parse back, and the value parses back |
| MspPsmLaws.AnnotationWords | mzio-rs/src/msp/psm.rs:369-412 | the whitespace parts of a written annotation are its first part and, when the triple is present, `n/d` and the value |
| MspPsmLaws.WrittenDecodable | mzio-rs/src/msp/psm.rs:207-210 | a written annotation never reaches the `unwrap` of a missing first part |
| MspPsmLaws.WrittenAnnotations | mzio-rs/src/msp/psm.rs:207-272 | the matched annotations decoded from a written annotation are the peak's own |
| MspPsmLaws.WrittenUnknown | mzio-rs/src/msp/psm.rs:308-321 | the unknown triple of a written annotation is decoded back, and the peak is rebuilt |
| MspPsmLaws.AnnotationRoundTrip | mzio-rs/src/msp/psm.rs:369-413 | a written annotation decodes, and `_create_msp_peak` on its parts gives the peak back |
| MspPsmLaws.PeakRoundTrip | mzio-rs/src/msp/psm.rs:414-421 | the peak at position k of a written PSM is the k-th peak |
| MspPsmLaws.PeaksRoundTrip | mzio-rs/src/msp/psm.rs:191-286 | the peaks decoded from a written PSM are the original peaks, in order |
| MspPsmLaws.ParsedPsmRoundTrip | mzio-rs/src/msp/mod.rs:41-55 | `to_psm` then `to_parsed_psm` gives every well-formed parsed PSM back |
| MspPsmLaws.ReencodeIsIdentity | mzio-rs/src/msp/mod.rs:48-54 | decoding a PSM in the written form and encoding it again gives the same PSM, which is what the line-for-line comparison of the parsing round trip relies on |
| MspReading.Unquote | mzio-rs/src/msp/reader.rs:104-115 | the annotation is accepted exactly when it starts and ends with '"' and has at least two characters. It is stored with exactly those two quotes removed |
| MspReading.PeakStep | mzio-rs/src/msp/reader.rs:91-116 | a peak line succeeds exactly when its m/z and intensity parse and its quoted annotation is there. It then appends one element to each of the three lists |
| MspReading.HeaderStep | mzio-rs/src/msp/reader.rs:118-136 | a header line fails exactly when it has no ": " or its `MW` value does not parse. Otherwise it marks the header as seen and leaves the three lists unchanged |
| MspReading.HeaderStepFields | mzio-rs/src/msp/reader.rs:128-134 | `Name`, `MW` and `Comment` set their field to the text between the first and second ": ". `Num peaks` falls back to 0 when its value is not a `usize`. Other keys change nothing but the seen flag |
| MspReading.Finish | mzio-rs/src/msp/reader.rs:64-83 | at the end of a record: `None` exactly when no header line was read; an error exactly when `Num peaks` differs from the number of peaks; otherwise the PSM of the gathered values |
| MspReading.Scan | mzio-rs/src/msp/reader.rs:52-140 | one call never moves backwards or past the end, and it returns a PSM only after a header line was read or lines were consumed |
| MspReading.MspReader.Next | mzio-rs/src/msp/reader.rs:40-141 | the loop of `next` equals `Scan` from the reader's position and moves the position past the lines used. At the end of the input it gives `Ok(None)` |
| MspReading.ReadPeakLine | mzio-rs/src/msp/reader.rs:91-116 | the peak-line branch, one field at a time, equals `PeakStep` |
| MspReading.ReadHeaderLine | mzio-rs/src/msp/reader.rs:118-136 | the header-line branch equals `HeaderStep` |
| MspReading.ScanBalanced | mzio-rs/src/msp/reader.rs:91-116 | a returned PSM has as many m/z values, intensities and annotations as it declares peaks |
| MspReading.ScanNoBlank | mzio-rs/src/msp/reader.rs:64 | none of the lines a call reads past, except the last line it consumes, is blank |
| MspReading.ScanStopsAtBlank | mzio-rs/src/msp/reader.rs:64-84 | a call that succeeds stops at the end of the input or just after a blank line |
| MspReading.ScanExtent | mzio-rs/src/msp/reader.rs:52-140 | no line before the last one a call consumes is blank. A call that stops before the end of the input consumes at least one line. A call that succeeds stops at the end of the input or just after a blank line |
| MspReading.ScanNone | mzio-rs/src/msp/reader.rs:57-66 | `Ok(None)` is returned only when no header line was read: every line the call consumed was blank or a peak line |
| MspReading.FoundSticks | mzio-rs/src/msp/reader.rs:65-83 | once a header line has been read, the call ends in a PSM or an error, never in `None` |
| MspWriting.PeakLines | mzio-rs/src/msp/writer.rs:78-80 | one `{mz}\t{intensity}\t"{annotation}"` line per zipped position, in list order |
| MspWriting.MspWriter.WritePsm | mzio-rs/src/msp/writer.rs:63-85 | the count goes up by one. The text grows by '\n' (only when a PSM was written before) and then the record: the four header lines and the peak lines. The result is the number of bytes appended |
| MspWriting.MspWriter.WriteHeader | mzio-rs/src/msp/writer.rs:73-76 | `Name`, `MW`, `Comment` and `Num peaks` lines in that order, with `Num peaks` taken from the header |
| MspWriting.MspWriter.WriteStr | mzio-rs/src/msp/writer.rs:87-95 | appends the text and returns its byte count |
| MspWriting.MspWriter.WriteAll | mzio-rs/src/msp/writer.rs:103-113 | the count goes up by the number of PSMs. The text grows by the PSMs' records in order, each separated as `write_psm` does. The result is the byte count of everything appended |
| MspWriting.MspWriter.constructor | mzio-rs/src/msp/writer.rs:26-31 | a new writer has written no PSM and no text |
| MspWriting.RecordsStep | mzio-rs/src/msp/writer.rs:108-110 | the text of the first k+1 PSMs is that of the first k, then the next record. The byte counts add up the same way |
| MspFileLaws.RecordsSeparated | mzio-rs/src/msp/writer.rs:68-71 | a writer that has already written a PSM writes one '\n' before the records, and otherwise the same text |
| MspFileLaws.RecordSteps | mzio-rs/src/msp/reader.rs:52-140 | the lines of a written well-formed PSM, read one after the other, gather exactly that PSM, and the final check accepts it |
| MspFileLaws.ScanRecord | mzio-rs/src/msp/reader.rs:64-84 | a record's lines followed by the end of the input or an empty line are read by one call of `next` as its PSM |
| MspFileLaws.WriteThenRead | mzio-rs/src/msp/mod.rs:24-35 | the lines of the text `write_all` writes for well-formed PSMs are read back, calling `next` until it gives `None`, as the same PSMs in the same order |
| MspFileLaws.ReadThenWrite | mzio-rs/src/msp/mod.rs:57-88 | a file in the writer's layout, read and written back, is the same text line for line |
| MspFileLaws.EmptyCommentNotRead | mzio-rs/src/msp/writer.rs:75 | an empty comment is written `Comment: `. The reader trims this to `Comment:`, which has no ": ", and rejects it; this is why the round trip needs non-empty header values |
| MspFileLaws.PsmLinesSafe | mzio-rs/src/msp/reader.rs:87-89 | no line of a written well-formed PSM trims to nothing without being blank, so `next` never reaches the `unwrap` of a missing first character |
| FastaEntries.New | mzio-rs/src/fasta/entry.rs:21-38 | `Entry::new` stores header and sequence unchanged: the getters give them back, and the sequence keeps its newlines |
| FastaEntries.NewOfGetters | mzio-rs/src/fasta/entry.rs:9-39 | an entry is determined by its getters. With no mutators it is a value |
| FastaPlain.New | mzio-rs/src/fasta/headers/plain.rs:14-31 | `new` stores the text unchanged, leading `>` included, and `get_header` and `Display` give exactly that text |
| FastaPlain.NewOfDisplay | mzio-rs/src/fasta/headers/plain.rs:20-31 | a plain header is rebuilt from its display, and from its getter |
| FastaTests.TestPlainDisplay | mzio-rs/src/fasta/headers/plain.rs:39-43 | the full UniProt test header, with its '\|', '=' and '/', displays as itself |
| FastaUniProt.PrepAndAddAttribute | mzio-rs/src/fasta/headers/uniprot.rs:56-66 | a text without '=' adds nothing. Otherwise the key before the first '=' is set to the text up to the next '=', overwriting an earlier value |
| FastaUniProt.InternalNew | mzio-rs/src/fasta/headers/uniprot.rs:74-134 | the `remove(0)` loops over the '\|' pieces and the space tokens equal the header decoder `Decode` |
| FastaUniProt.FirstAttribute | mzio-rs/src/fasta/headers/uniprot.rs:86-97 | the protein-name loop stops at the first token at or after the given position that holds '=' |
| FastaUniProt.Items | mzio-rs/src/fasta/headers/uniprot.rs:144-145 | one `key=value` item per key, in the given iteration order |
| FastaUniProtLaws.PrepAndAddItem | mzio-rs/src/fasta/headers/uniprot.rs:56-66 | a written `k=v` item adds exactly key k with value v |
| FastaUniProtLaws.GroupsOfItems | mzio-rs/src/fasta/headers/uniprot.rs:99-126 | the attribute loop hands a displayed item, spaces included, to the helper whole |
| FastaUniProtLaws.AttributesOfItems | mzio-rs/src/fasta/headers/uniprot.rs:99-126 | decoding the attribute tokens of a listing of the map gives the map back |
| FastaUniProtLaws.SortedListing | mzio-rs/src/fasta/headers/uniprot.rs:144-150 | the test build's sorted `key=value` items are the items of a listing of the same map |
| FastaUniProtLaws.DecodeLayout | mzio-rs/src/fasta/headers/uniprot.rs:76-97 | the database is the first '\|' piece without its first character, and the accession is the second piece. The entry name is the first space token, and the protein name is the tokens before the first token with '=', joined by spaces |
| FastaUniProtLaws.DecodeDisplay | mzio-rs/src/fasta/headers/uniprot.rs:163-166 | decoding a displayed well-formed header gives it back, in any iteration order of the attribute map and in either build |
| FastaUniProtLaws.DisplayWithoutAttributes | mzio-rs/src/fasta/headers/uniprot.rs:88-97 | a header without attributes is displayed with a trailing space and no token with '=', so decoding it would never leave the protein-name loop |
| FastaUniProtLaws.DisplaySortedAnyOrder | mzio-rs/src/fasta/headers/uniprot.rs:141-154 | in a test build the display is the same for every iteration order of the map |
| FastaUniProtTests.TestCreation | mzio-rs/src/fasta/headers/uniprot.rs:188-199 | the test header decodes to `sp`, `P27748`, `ACOX_CUPNH`, `Acetoin catabolism protein X` and the five expected attributes |
| FastaUniProtTests.TestHeaderDisplayed | mzio-rs/src/fasta/headers/uniprot.rs:174 | the test header is the display of the expected fields with the keys in the header's own order |
| FastaUniProtTests.SortedItemsSorted | mzio-rs/src/fasta/headers/uniprot.rs:186 | the expected header lists its attributes in sorted order |
| FastaUniProtTests.TestDisplay | mzio-rs/src/fasta/headers/uniprot.rs:201-205 | in a test build the decoded test header displays as the expected header, whatever the map's order |
| Sorting.Sort | mzio-rs/src/fasta/headers/uniprot.rs:149 | `sort` gives a sorted permutation of the items |
| Sorting.SortedUnique | mzio-rs/src/fasta/headers/uniprot.rs:149 | there is only one sorted arrangement of a multiset, so the test-build display does not depend on the sorting algorithm |
| FastaReading.EntryOf | mzio-rs/src/fasta/reader.rs:121-131 | the entry's sequence has no '\n'. The plain header is present exactly when it is to be kept, and it is then the header line |
| FastaReading.CreateEntry | mzio-rs/src/fasta/reader.rs:68-132 | `create_entry` always returns `Some` entry with the UniProt fields of the header, the sequence without newlines and the optional header line |
| FastaReading.Classified | mzio-rs/src/fasta/reader.rs:151-152 | every input line is trimmed and marked as a header line exactly when it starts with '>' |
| FastaReading.ReadAllFrom | mzio-rs/src/fasta/reader.rs:139-166 | calling `next` until it gives `None` hands at least one header and sequence to `create_entry`: the last call, at the end of the input, always makes one |
| FastaReading.Entries | mzio-rs/src/fasta/reader.rs:136-166 | a new reader yields one entry per header and sequence pair handed over |
| FastaReading.Scan | mzio-rs/src/fasta/reader.rs:144-164 | one call never moves backwards or past the end. At the end of the input it hands over the pending header; otherwise it stops after a header line and hands over a non-empty header |
| FastaReading.FastaReader.constructor | mzio-rs/src/fasta/reader.rs:31-40 | nothing read, no header pending, not at the end |
| FastaReading.FastaReader.Next | mzio-rs/src/fasta/reader.rs:139-166 | after the end, `None` and nothing changes. Otherwise the sequence is reset, and the entry of the header and sequence that `Scan` hands over is returned. The new position, pending header and `is_eof` are those of `Scan` |
| FastaReaderLaws.EmptyAttributeAddsNothing | mzio-rs/src/fasta/reader.rs:95-108 | the empty initial `current_attr` adds no attribute |
| FastaReaderLaws.EntryOfDisplay | mzio-rs/src/fasta/reader.rs:68-120 | the entry built from a displayed UniProt header carries that header's fields |
| FastaReaderLaws.EntryOfLines | mzio-rs/src/fasta/reader.rs:129 | sequence lines joined by '\n' are stored as their concatenation |
| FastaReaderLaws.ScanBody | mzio-rs/src/fasta/reader.rs:151-153 | trimmed lines that do not start with '>' are appended to the sequence, in order |
| FastaReaderLaws.ScanHeader | mzio-rs/src/fasta/reader.rs:155-158 | at a '>' line with a header pending, that header and its sequence are handed over and the new line is kept as the next header |
| FastaReaderLaws.ScanEnd | mzio-rs/src/fasta/reader.rs:147-150 | at the end of the input the pending header is handed over and `is_eof` is set |
| FastaReaderLaws.FirstHeaderStored | mzio-rs/src/fasta/reader.rs:159-161 | the first header line is only stored |
| FastaReaderLaws.LeadingLinesPrepended | mzio-rs/src/fasta/reader.rs:143-161 | lines before the first header are kept, and handed over as the start of the first entry's sequence |
| FastaWriting.Chunks | mzio-rs/src/fasta/writer.rs:46-52 | `chunks(n)` pieces concatenate to the text. Each is 1 to n characters long, and all but the last have exactly n |
| FastaWriting.ChunkCount | mzio-rs/src/fasta/writer.rs:16 | a sequence is cut into ⌈length / 60⌉ lines |
| FastaWriting.ChunksOfPieces | mzio-rs/src/fasta/writer.rs:46-52 | pieces of exactly n characters, the last of 1 to n, are the chunks of their concatenation |
| FastaWriting.FormatUnwraps | mzio-rs/src/fasta/writer.rs:46-53 | removing the '\n' separators of a formatted sequence gives the sequence back |
| FastaWriting.FormatLines | mzio-rs/src/fasta/writer.rs:46-53 | the lines of a formatted non-empty sequence are its 60-character chunks: every line but the last has 60 characters, and the last has 1 to 60 |
| FastaWriting.FormatEmpty | mzio-rs/src/fasta/writer.rs:46-53 | the empty sequence formats to the empty text |
| FastaWriting.FastaWriter.WriteEntry | mzio-rs/src/fasta/writer.rs:61-68 | appends the header's display, '\n', the formatted sequence and '\n', and returns the byte count |
| FastaWriting.FastaWriter.WriteAll | mzio-rs/src/fasta/writer.rs:77-86 | appends the entries in order and returns the sum of their byte counts, which is the byte count of all the text |
| FastaWriting.FastaWriter.constructor | mzio-rs/src/fasta/writer.rs:32-38 | a new writer has written nothing, and displays headers with the given display |
| FastaWriting.AllTextBytes | mzio-rs/src/fasta/writer.rs:81-85 | the sum of the per-entry counts is the byte length of the whole text |
| FastaFileLaws.EntryTextLines | mzio-rs/src/fasta/writer.rs:63-66 | an entry's text is its header line and its sequence lines, each followed by '\n' |
| FastaFileLaws.SequenceLinesRead | mzio-rs/src/fasta/writer.rs:46-53 | the written sequence lines trim to themselves, do not start with '>', and concatenate to the sequence |
| FastaFileLaws.ReadFile | mzio-rs/src/fasta/reader.rs:139-166 | a new reader on a written file hands over every entry's header line and sequence, in order |
| FastaFileLaws.WriteThenRead | mzio-rs/src/fasta/mod.rs:47-58 | writing well-formed entries and reading the text back with the header lines kept gives the same number of entries, each with its header and sequence |
| FastaFileLaws.ReadThenWrite | mzio-rs/src/fasta/mod.rs:60-74 | a file in the writer's layout, read with the header lines kept and written with plain headers, is the same text |
| FastaTests.TestSequenceFormatting | mzio-rs/src/fasta/writer.rs:118-125 | the unwrapped test sequence is wrapped into the six expected lines |
| FastaTests.TestEntryCreation | mzio-rs/src/fasta/reader.rs:198-216 | the test header with the six sequence lines gives the expected fields, the sequence without newlines and each expected attribute |
| FastaTests.TestReadFile | mzio-rs/src/fasta/reader.rs:139-166 | the test header followed by the six lines is read as one entry: the header and the unwrapped sequence |
| MgfSpectra.MgfSpectrumHeader.constructor | mzio-rs/src/mgf/spectrum.rs:31-44 | every value is stored as given, with no precursor mass |
| MgfSpectra.MgfSpectrumHeader.SetPrecursorMass | mzio-rs/src/mgf/spectrum.rs:72-75 | the mass becomes `Some(v)`, nothing else changes, and the header itself is returned |
| MgfSpectra.MgfSpectrumHeader.CalcPrecursorMass | mzio-rs/src/mgf/spectrum.rs:79-82 | the mass is `None` exactly when the charge is `None`, and otherwise is the conversion of m/z and charge. Nothing else changes |
| MgfSpectra.MgfSpectrum.constructor | mzio-rs/src/mgf/spectrum.rs:110-130 | a new header from the first four values. The two lists are stored unchanged and the getters return them |
| MgfReading.ParseAll | mzio-rs/src/mgf/reader.rs:51-52 | the collected list succeeds exactly when every text parses, and then holds each parsed value in order |
| MgfReading.ParseCharge | mzio-rs/src/mgf/reader.rs:49 | the charge is `parse::<i8>()` of the whole value |
| MgfReading.Classified | mzio-rs/src/mgf/reader.rs:79-116 | every input line as `next` classifies it, each line on its own |
| MgfReading.Build | mzio-rs/src/mgf/reader.rs:44-54 | `create_spectrum` succeeds exactly when every text parses. Otherwise it fails at the first text, in argument order, that does not parse. On success each value is the parse of its text, and a charge or retention time is present exactly when its text is |
| MgfReading.Scan | mzio-rs/src/mgf/reader.rs:70-119 | one call never moves backwards or past the end. `None` only at the end of the input, and a call that reads no line is at the end, with an error exactly when a block is open |
| MgfReading.MgfReader.Next | mzio-rs/src/mgf/reader.rs:60-120 | the result is `None`, or the outcome of parsing the block `Scan` returns from the reader's position; the position moves past the lines used |
| MgfReading.MgfReader.ReadBlock | mzio-rs/src/mgf/reader.rs:62-119 | the loop with the seven gathered values equals `Scan`, skipping lines that are empty after trimming |
| MgfReading.ReadPeakLine | mzio-rs/src/mgf/reader.rs:84-96 | a numeric-led line appends its first two words to the m/z and intensity texts. A missing first or second word ends the call with its error |
| MgfReading.ReadKeyedLine | mzio-rs/src/mgf/reader.rs:97-116 | `TITLE=`, `PEPMASS=`, `RTINSECONDS=` and `CHARGE=` set their value to the rest of the line. `BEGIN IONS` opens the block, `END IONS` ends the call with the gathered values, and any other line changes nothing |
| MgfReading.ReadAllWith | mzio-rs/src/mgf/mod.rs:27-32 | the items a new reader yields are the blocks read in turn, each parsed with `create_spectrum` |
| MgfReading.MgfReader.constructor | mzio-rs/src/mgf/reader.rs:26-31 | a new reader on the lines of its file, before the first line |
| MgfReaderLaws.PassesContinues | mzio-rs/src/mgf/reader.rs:84-116 | exactly `END IONS` and peak lines with fewer than two words end the call, whatever was gathered |
| MgfReaderLaws.StopAt | mzio-rs/src/mgf/reader.rs:84-116 | the first line from the given position that ends a call of `next`: every line before it lets the call go on |
| MgfReaderLaws.ScanFold | mzio-rs/src/mgf/reader.rs:70-119 | up to any line that the lines before it let through, a call of `next` is that call from the line with the values folded from the lines before it |
| MgfReaderLaws.ScanResult | mzio-rs/src/mgf/reader.rs:70-119 | one call returns the fold of the lines up to the first line that ends it: the values at `END IONS`, the m/z or intensity error at a short peak line, and at the end of the input the incomplete-spectrum error when a block is open and `None` otherwise |
| MgfReaderLaws.LastValue | mzio-rs/src/mgf/reader.rs:97-104 | the value of a key is that of the last line with the key, or none when there is no such line |
| MgfReaderLaws.FoldKeyed | mzio-rs/src/mgf/reader.rs:97-104 | each keyed value is the rest of the last line with its key, and otherwise keeps its starting value |
| MgfReaderLaws.FoldOpen | mzio-rs/src/mgf/reader.rs:105-106 | the block is open exactly when it was open before or a `BEGIN IONS` line was read |
| MgfReaderLaws.FoldPeaks | mzio-rs/src/mgf/reader.rs:84-96 | the m/z and intensity texts are the first and second words of the peak lines, appended in file order |
| MgfReaderLaws.ScanBalanced | mzio-rs/src/mgf/reader.rs:84-96 | every returned block has as many m/z texts as intensity texts, the words of its peak lines in file order |
| MgfReaderLaws.EndOfInput | mzio-rs/src/mgf/reader.rs:73-78 | at the end of the input, the incomplete-spectrum error exactly when a `BEGIN IONS` line was read, and `None` exactly when none was |
| MgfWriting.PeakLines | mzio-rs/src/mgf/writer.rs:53-55 | one `{mz} {intensity}` line per zipped pair, in list order |
| MgfWriting.MgfWriter.WriteHead | mzio-rs/src/mgf/writer.rs:43-45 | `BEGIN IONS`, `TITLE={title}` and `PEPMASS={mz}`, the last without its line break |
| MgfWriting.MgfWriter.WriteHeader | mzio-rs/src/mgf/writer.rs:43-52 | then `RTINSECONDS=` exactly when there is a retention time, and `CHARGE={charge}{sign}` exactly when there is a charge |
| MgfWriting.MgfWriter.WritePeaks | mzio-rs/src/mgf/writer.rs:53-55 | each peak line with its break in front, and the byte counts add up |
| MgfWriting.MgfWriter.WriteEnd | mzio-rs/src/mgf/writer.rs:56 | `\nEND IONS\n` ends the open line and the block |
| MgfWriting.MgfWriter.WriteSpectrum | mzio-rs/src/mgf/writer.rs:39-58 | appends the spectrum's block and returns its byte count |
| MgfWriting.MgfWriter.WriteAll | mzio-rs/src/mgf/writer.rs:66-75 | appends the blocks in order and returns the sum of their byte counts, which is the byte count of all the text |
| MgfWriting.MgfWriter.WriteAnother | mzio-rs/src/mgf/writer.rs:70-72 | one turn of the `write_all` loop: the text of the spectra so far grows by the next block, and so does the byte count |
| MgfWriting.AllTextBytes | mzio-rs/src/mgf/writer.rs:66-75 | the sum of the per-block counts is the byte length of the whole text |
| MgfWriting.OptionalSplit | mzio-rs/src/mgf/writer.rs:46-52 | the `RTINSECONDS=` line comes before the `CHARGE=` line, each present exactly when its value is |
| MgfWriting.MgfWriter.Write | mzio-rs/src/mgf/writer.rs:43-56 | one `write` appends its text and returns its byte count |
| MgfWriting.MgfWriter.constructor | mzio-rs/src/mgf/writer.rs:26-31 | a new writer has written nothing |
| MgfFileLaws.ChargeNotReadBack | mzio-rs/src/mgf/writer.rs:49-52 | the charge text as written (`2+`, `-2-`) never parses as an `i8` |
| MgfFileLaws.NegativeChargeWrittenTwice | mzio-rs/src/mgf/writer.rs:50-51 | the charge -2 is written `-2-` |
| MgfFileLaws.ChargeFixedShape | mzio-rs/src/mgf/writer.rs:49-52 | the corrected charge text is the digits of the magnitude followed by the sign |
| MgfFileLaws.ChargeFixedRoundTrip | mzio-rs/src/mgf/reader.rs:49 | the corrected reader reads back every charge the corrected writer writes |
| MgfFileLaws.ShowChargeAgrees | mzio-rs/src/mgf/writer.rs:49-52 | the corrected writer writes non-negative charges as the writer does |
| MgfFileLaws.ParseChargeFixedExtends | mzio-rs/src/mgf/reader.rs:49 | the corrected reader reads every text `parse::<i8>()` reads, to the same value |
| MgfFileLaws.ClassifyPeak | mzio-rs/src/mgf/reader.rs:84-96 | a written peak line starts with a digit and is read as its two words |
| MgfFileLaws.ClassifiedBlock | mzio-rs/src/mgf/reader.rs:79-116 | the lines of a written block, as `next` classifies them |
| MgfFileLaws.FoldBody | mzio-rs/src/mgf/reader.rs:84-106 | the lines of a written block before `END IONS` gather the texts the block was written from |
| MgfFileLaws.ScanBlock | mzio-rs/src/mgf/reader.rs:107-116 | one call of `next` at a written block returns those texts and moves past `END IONS` |
| MgfFileLaws.ReadWritten | mzio-rs/src/mgf/mod.rs:27-32 | a written file is read block by block as the texts it was written from, whatever then parses them |
| MgfFileLaws.BuildWritten | mzio-rs/src/mgf/reader.rs:44-54 | parsing the written texts gives the spectrum back, cut to its written pairs, when the charge reads back |
| MgfFileLaws.BuildWrittenCharged | mzio-rs/src/mgf/reader.rs:49 | as written, the texts of a spectrum with a charge fail at the charge |
| MgfFileLaws.WriteThenRead | mzio-rs/src/mgf/mod.rs:23-55 | as written: the reader gives back each spectrum that has no charge, and `ChargeNotInteger` for each spectrum that has one |
| MgfFileLaws.WriteThenReadFixed | mzio-rs/src/mgf/mod.rs:23-55 | with the corrected charge, every written spectrum is read back, cut to its written pairs |
| MgfFileLaws.ReadThenWrite | mzio-py/tests/test_mgf.py:13-33 | a file in the writer's layout with no charges is read as spectra only, and writing them back gives the same text |
| MgfFileLaws.ReadThenWriteFixed | mzio-py/tests/test_mgf.py:13-33 | the same for any spectra, with the corrected charge |
| MgfFileLaws.ZippedText | mzio-rs/src/mgf/writer.rs:53-55 | only the zipped pairs are written: cutting the two lists to the shorter one's length changes no text |
| MgfTests.TestChargeParses | mzio-rs/src/mgf/reader.rs:132 | the test charge `2` parses to 2 |
| MgfTests.EntryCreation | mzio-rs/src/mgf/reader.rs:213-270 | `create_spectrum` on the test texts gives the expected title, precursor m/z, charge 2, retention time and the 16 m/z and intensity values in order, including `1.0035e+006` as 1003500 |
| Decimal.ParseUnsignedOfNatToString | mzio-rs/src/msp/reader.rs:132 | a written `usize` is parsed back to itself |
| Decimal.ParseUnsignedRejects | mzio-rs/src/msp/psm.rs:263 | Rust's integer parse fails on the empty text and on any character other than digits and a leading sign |
| Decimal.ParseSignedOfIntToString | mzio-rs/src/msp/psm.rs:189 | an `i8` written by `Display` is parsed back to itself |
| Decimal.ParseSigned | mzio-rs/src/msp/psm.rs:189 | Rust's signed `from_str` only gives values in the type's range |
| Text.LinesUnlines | mzio-rs/src/msp/mod.rs:80-87 | text written as lines, each followed by '\n', is read back as exactly those lines |
| Text.Split | mzio-rs/src/msp/psm.rs:181 | `split` always gives at least one piece |
| Text.SplitJoin | mzio-rs/src/msp/psm.rs:404 | splitting a join, by a separator none of the pieces holds, gives the pieces back |
| Text.TrimEmpty | mzio-rs/src/msp/reader.rs:64 | `trim` leaves nothing exactly when every character is whitespace |
| Text.RemoveNewlinesJoin | mzio-rs/src/fasta/reader.rs:129 | taking the newlines out of newline-free lines joined by '\n' concatenates them |

## Left out

- File and buffer plumbing is not modelled: `File::open`/`create`, `BufReader`/`BufWriter`, paths, buffer sizes and `flush`. Instead, a reader is given the lines of its file, and a writer appends to a `string`.
- Read errors are not modelled. The FASTA and MGF readers skip a failed read and retry (`if let Ok`), and the MSP reader passes it on; all of this is I/O.
- A `write` that fails, or writes only part of its buffer, is not modelled. Every write appends its whole text.
- Floating point is not modelled. `fast_float::parse` and float `Display` are a parameter pair, single and double precision are not told apart, and NaN and the infinities are excluded only where a law needs a displayed number to start with a digit.
- `mass_to_mz` and `mz_to_mass` belong to another crate and are function parameters.
- The iteration order of a `HashMap` is unspecified, so it is a parameter (`order`) of the UniProt display.
- The library's `Header` trait is not modelled as a trait. The FASTA writer takes the header's `Display` as a function parameter instead, and `Plain` and `UniProt` are datatypes.
- The test build's in-place `sort` is modelled as the sorted permutation of the items (`Sorting.Sort`), not as a mutation of a vector.
- The inputs on which the source panics are excluded by `requires` clauses and are not modelled as behaviour:
  - `remove(0)` or `[1..]` on a UniProt header with too few pieces. This includes the empty header that `FastaReader::next` hands over at the end of an empty input.
  - The protein-name loop on a header with no token holding '='. It never ends.
  - The `unwrap` of a missing first part of an MSP annotation that does not start with '?'.
  - The `unwrap` of a missing denominator in `_create_msp_peak`.
  - The `unwrap` of the first character of an MSP line that trims to nothing but is not ASCII-blank.
- MspReading.MspReader.Next: requires that no remaining line of the input makes `next` panic, although one call only reads up to the end of its record. The precondition is stronger than the source needs, so that it can be stated once, on the reader.
- The writers' `written_bytes` is a `usize`, but its overflow is not modelled: the counts are unbounded.
- MgfReading.ReadAllWith: `is_numeric` is Unicode's numeric property, which is a parameter `numeric`. The file laws require it to agree with the Latin-1 numeric characters on the first characters the writer writes, and the other non-ASCII numeric characters are left open.
- MspPsmLaws.ParsedPsmRoundTrip: holds for fragment charges of 0 or more only. A negative fragment charge is written `^-2` and read back as an error (`MspPsmLaws.NegativeFragmentCharge`). The decoder only reads digit runs, so it never produces a negative charge itself.
- MspPsmLaws.ParsedPsmRoundTrip: also holds for whole-number neutral losses only. The source's loss is an `f64`, but the model's is a natural number, because the decoder only reads the loss from a run of digits (its `f64` parse of that run is taken to be exact). A fractional loss such as 17.5 with charge 2 is written `y4-17.5^2`, which decodes without error to loss 17 and charge 5 (`MspPsmLaws.DecimalLossMisread`). The model cannot hold such a loss, so it does not state that round trip.
- MspFileLaws.WriteThenRead: holds for PSMs whose name and comment are non-empty, trimmed, free of ": " and of line breaks, whose m/z values are displayed starting with a digit, and whose declared peak count matches the lists. `MspFileLaws.EmptyCommentNotRead` shows that an empty comment is not read back.
- FastaFileLaws.WriteThenRead: needs at least one entry. The reader at the end of an empty file hands the empty header to `create_entry`, which panics.
- The MGF reader's seven local variables are one `Pending` record in the model, and the body of `next` is split into a loop method (`ReadBlock`) and two methods for the kinds of lines.
- The Python bindings (`mzio-py/src`) forward calls to the Rust code and are not modelled. Their tests are used as evidence only.
- The integration tests in the `mod.rs` files read fixture files that are not part of this model. They are stated as the file round-trip laws for every well-formed input.
- `mgf/reader.rs` builds the historical `Spectrum` type, and `fasta/reader.rs` builds the historical `FastaEntry`. The first is modelled by the six values of `MgfSpectra.Spectrum`, and the second by `FastaReading.FastaEntry`. The derives (`serde`, `PartialOrd`) and the error wrappers are not modelled.
- The FASTA test strings are written as concatenations of short constant pieces, and the UniProt test attribute text as its items joined by spaces. The texts are the same as the source's.

## Findings

| source | as written | input that shows it | evidently intended | confidence | as-written member | corrected member |
|---|---|---|---|---|---|---|
| mzio-rs/src/mgf/writer.rs:49-52 | the writer appends the sign to the charge (`CHARGE=2+`), and the reader parses the whole value with `parse::<i8>()` (`mgf/reader.rs:49`), which refuses the trailing sign. So no charged spectrum that the writer writes is read back | a spectrum with charge 2: written `CHARGE=2+`, read back as a charge error | writer and reader agree on the `CHARGE=` text, so that write-then-read gives the spectrum back (the read-and-write test of `mgf/mod.rs:23-55` relies on this, and skips the spectra that fail to read) | high (not executed) | MgfFileLaws.WriteThenRead | MgfFileLaws.WriteThenReadFixed |
| mzio-rs/src/mgf/writer.rs:50-51 | a negative charge is displayed with its minus sign and then followed by the '-' sign character | charge -2 is written `CHARGE=-2-` | the sign is written once: the digits of the magnitude followed by the sign (`2-`) | high (not executed) | MgfFileLaws.NegativeChargeWrittenTwice | MgfFileLaws.ChargeFixedShape |
