/**
  The unit tests of `fasta/headers/uniprot.rs`: the test header decodes to the
  expected fields, and its display in a test build lists the attributes sorted.

  The organism and the protein name are written as several short pieces and the
  attribute text as its items joined by single spaces: the strings are the
  tests' strings, and the pieces let the verifier look at a few characters at
  a time.
 */
module FastaUniProtTestData {
  const Organism1: string := "Cupriavidus "
  const Organism2: string := "necator "
  const Organism3: string := "(strain "
  const Organism4: string := "ATCC 17699 "
  const Organism5: string := "/ H16 "
  const Organism6: string := "/ DSM 428 "
  const Organism7: string := "/ Stanier "
  const Organism8: string := "337)"

  /** `Cupriavidus necator (strain ATCC 17699 / H16 / DSM 428 / Stanier 337)` */
  const Organism: string :=
    Organism1 + Organism2 + Organism3 + Organism4 + Organism5 + Organism6 + Organism7 + Organism8

  const Protein1: string := "Acetoin "
  const Protein2: string := "catabolism "
  const Protein3: string := "protein X"

  /** `Acetoin catabolism protein X` */
  const Protein: string := Protein1 + Protein2 + Protein3

  /** Neither `|` nor `=`: a text the codec carries through unchanged. */
  predicate Clean(s: string) {
    '|' !in s && '=' !in s
  }

  lemma OrganismClean()
    ensures Clean(Organism)
  {
    assert Clean(Organism1); assert Clean(Organism2); assert Clean(Organism3); assert Clean(Organism4);
    assert Clean(Organism5); assert Clean(Organism6); assert Clean(Organism7); assert Clean(Organism8);
  }

  lemma ProteinClean()
    ensures Clean(Protein)
  {
    assert Clean(Protein1); assert Clean(Protein2); assert Clean(Protein3);
  }
}

module FastaUniProtTests {
  import opened Text
  import opened Sorting
  import opened FastaUniProt
  import opened FastaUniProtLaws
  import opened FastaUniProtTestData

  /** The attributes in the order the test header lists them. */
  const TestItems: seq<string> :=
    ["OS" + "=" + Organism, "OX" + "=" + "381666", "GN" + "=" + "acoX", "PE" + "=" + "4", "SV" + "=" + "2"]

  /** The attributes in sorted order, as the expected header lists them. */
  const SortedItems: seq<string> :=
    ["GN" + "=" + "acoX", "OS" + "=" + Organism, "OX" + "=" + "381666", "PE" + "=" + "4", "SV" + "=" + "2"]

  /** `>sp|P27748|ACOX_CUPNH Acetoin catabolism protein X OS=… OX=381666 GN=acoX PE=4 SV=2` */
  const TestHeader: string :=
    ">" + "sp" + "|" + "P27748" + "|" + "ACOX_CUPNH" + " " + Protein + " " + Join(TestItems, " ")

  /** `EXPECTED_HEADER`: `>sp|P27748|ACOX_CUPNH Acetoin catabolism protein X GN=acoX OS=… OX=381666 PE=4 SV=2` */
  const ExpectedHeader: string :=
    ">" + "sp" + "|" + "P27748" + "|" + "ACOX_CUPNH" + " " + Protein + " " + Join(SortedItems, " ")

  const TestAttributes: map<string, string> :=
    map["OS" := Organism, "OX" := "381666", "GN" := "acoX", "PE" := "4", "SV" := "2"]

  const TestUniProt: UniProt := UniProt("sp", "P27748", "ACOX_CUPNH", Protein, TestAttributes)

  lemma FieldsGood()
    ensures WellFormedFields(TestUniProt)
  {
    ProteinClean();
  }

  lemma AttributesGood()
    ensures forall k :: k in TestAttributes ==> GoodKey(k) && GoodValue(TestAttributes[k])
  {
    OrganismClean();
    forall k | k in TestAttributes ensures GoodKey(k) && GoodValue(TestAttributes[k]) {
      assert k == "OS" || k == "OX" || k == "GN" || k == "PE" || k == "SV";
    }
  }

  lemma TestWellFormed()
    ensures WellFormed(TestUniProt)
  {
    FieldsGood();
    AttributesGood();
    assert "SV" in TestAttributes;
  }

  /** The order the test header lists its keys in. */
  const TestOrder: seq<string> := ["OS", "OX", "GN", "PE", "SV"]

  lemma TestOrderItems()
    ensures IsListing(TestOrder, TestAttributes)
    ensures Items(TestAttributes, TestOrder) == TestItems
  {
    ItemsFromAt(TestAttributes, TestOrder, TestItems);
  }

  /** The test header is the display of the expected fields with the keys in the header's order. */
  lemma TestHeaderDisplayed()
    ensures IsListing(TestOrder, TestAttributes)
    ensures Display(TestUniProt, TestOrder, false) == TestHeader
  {
    TestOrderItems();
    assert "SV" in TestAttributes;
    assert KeywordAttributesToString(TestAttributes, TestOrder, false) == Join(TestItems, " ");
  }

  /** `test_creation`: the test header decodes to the expected fields and attributes. */
  lemma TestCreation()
    ensures Decodable(TestHeader) && Decode(TestHeader) == TestUniProt
  {
    TestHeaderDisplayed();
    TestWellFormed();
    DecodeDisplay(TestUniProt, TestOrder, false);
  }

  const SortedOrder: seq<string> := ["GN", "OS", "OX", "PE", "SV"]

  /** The sorted keys list the test attributes, with the sorted items. */
  lemma SortedOrderItems()
    ensures IsListing(SortedOrder, TestAttributes)
    ensures Items(TestAttributes, SortedOrder) == SortedItems
  {
    ItemsFromAt(TestAttributes, SortedOrder, SortedItems);
  }

  /** `EXPECTED_HEADER` lists its attributes in order. */
  lemma SortedItemsSorted()
    ensures Sorted(SortedItems)
  {
    forall i, j | 0 <= i < j < |SortedItems| ensures StrLe(SortedItems[i], SortedItems[j]) {
      if i == 1 && j == 2 {
        assert SortedItems[1][0] == SortedItems[2][0] == 'O';
        assert SortedItems[1][1..][0] == 'S' && SortedItems[2][1..][0] == 'X';
      } else {
        assert SortedItems[i][0] < SortedItems[j][0];
      }
    }
  }

  /** `test_display`: in a test build the decoded test header displays as `EXPECTED_HEADER`, whatever the map's order. */
  lemma TestDisplay(order: seq<string>)
    requires IsListing(order, TestAttributes)
    ensures Decodable(TestHeader) && Decode(TestHeader) == TestUniProt
    ensures Display(Decode(TestHeader), order, true) == ExpectedHeader
  {
    TestCreation();
    SortedOrderItems();
    SortedItemsSorted();
    SortedUnique(Sort(SortedItems), SortedItems);
    AttributesGood();
    DisplaySortedAnyOrder(TestUniProt, order, SortedOrder);
  }
}
