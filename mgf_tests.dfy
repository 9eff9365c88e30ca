/**
  The unit test of `mgf/reader.rs`: `create_spectrum` on the test texts gives
  the expected spectrum. The texts of the numbers are read by the float syntax,
  which is a parameter; the test's expectation on each of them is a hypothesis
  of the lemma (among them "1.0035e+006", the intensity in scientific notation,
  read as 1003500). The charge "2" is read by the model's own `parse::<i8>()`.
 */
module MgfTests {
  import opened Base
  import opened Decimal
  import opened Floats
  import opened MgfSpectra
  import opened MgfReading

  const TestTitle: string := "SOME_GENERIC_4LPH4NUM3RIC_TILE"
  const TestPrecursorMz: string := "824.836730957031"
  const TestPrecursorCharge: string := "2"
  const TestRetentionTime: string := "212.9232"

  const TestMzList: seq<string> := [
    "118.936477661133", "122.26781463623", "138.923324584961", "188.516448974609",
    "268.502807617188", "269.640869140625", "291.39013671875", "301.587707519531",
    "326.118194580078", "340.996948242188", "355.069671630859", "357.8935546875",
    "708.145690917969", "731.38818359375", "1201.05639648438", "1364.15832519531"]

  const TestIntensityList: seq<string> := [
    "429.616", "354.588", "369.316", "367.936", "408.742", "1.0035e+006", "405.47", "425.719",
    "429.315", "657.018", "2271.57", "477.306", "479.876", "348.131", "385.268", "385.311"]

  const ExpectedMzList: seq<real> := [
    118.936477661133, 122.26781463623, 138.923324584961, 188.516448974609,
    268.502807617188, 269.640869140625, 291.39013671875, 301.587707519531,
    326.118194580078, 340.996948242188, 355.069671630859, 357.8935546875,
    708.145690917969, 731.38818359375, 1201.05639648438, 1364.15832519531]

  const ExpectedIntensityList: seq<real> := [
    429.616, 354.588, 369.316, 367.936, 408.742, 1003500.0, 405.47, 425.719,
    429.315, 657.018, 2271.57, 477.306, 479.876, 348.131, 385.268, 385.311]

  /** What the test expects the float syntax to read. */
  ghost predicate ReadsTestNumbers(fs: FloatSyntax) {
    fs.parse(TestPrecursorMz) == Some(824.836730957031)
    && fs.parse(TestRetentionTime) == Some(212.9232)
    && (forall k :: 0 <= k < |TestMzList| ==> fs.parse(TestMzList[k]) == Some(ExpectedMzList[k]))
    && (forall k :: 0 <= k < |TestIntensityList| ==> fs.parse(TestIntensityList[k]) == Some(ExpectedIntensityList[k]))
  }

  lemma TestChargeParses()
    ensures ParseCharge(TestPrecursorCharge) == Some(2)
  {
    assert DigitsValue("2") == 2;
  }

  /** `test_entry_creation`: every getter of the created spectrum gives the expected value, the lists in order. */
  lemma EntryCreation(fs: FloatSyntax)
    requires ReadsTestNumbers(fs)
    ensures CreateSpectrum(Pending(true, TestTitle, TestPrecursorMz, Some(TestPrecursorCharge), Some(TestRetentionTime),
                                   TestMzList, TestIntensityList), fs)
            == Ok(Spectrum("SOME_GENERIC_4LPH4NUM3RIC_TILE", 824.836730957031, Some(2), Some(212.9232),
                           ExpectedMzList, ExpectedIntensityList))
  {
    TestChargeParses();
    var p := Pending(true, TestTitle, TestPrecursorMz, Some(TestPrecursorCharge), Some(TestRetentionTime),
                     TestMzList, TestIntensityList);
    var s := CreateSpectrum(p, fs).value;
    assert s.mzList == ExpectedMzList;
    assert s.intensityList == ExpectedIntensityList;
  }
}
