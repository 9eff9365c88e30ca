/**
  The MGF spectrum (`mgf/spectrum.rs`): a header with the title, the precursor's
  m/z, charge and retention time and a precursor mass that is filled in later,
  and the peak lists. The header is changed in place by `set_precursor_mass`
  and `calc_precursor_mass`, so it is a class; the spectrum owns one header.

  The m/z-to-mass conversion of `calc_precursor_mass` belongs to another crate
  and is a parameter.
 */
module MgfSpectra {
  import opened Base
  import opened Decimal

  /**
    The values a spectrum is made of: the arguments of `MgfSpectrum::new`. They
    are also the record `mgf/reader.rs` builds (its `Spectrum`, an older name
    for the same six values).
   */
  datatype Spectrum = Spectrum(
    title: string,
    precursorMz: real,
    precursorCharge: Option<I8>,
    retentionTime: Option<real>,
    mzList: seq<real>,
    intensityList: seq<real>)

  class MgfSpectrumHeader {
    var title: string
    var precursorMz: real
    var precursorCharge: Option<I8>
    var precursorMass: Option<real>
    var retentionTime: Option<real>

    /** `MgfSpectrumHeader::new`: every value stored as given, and no precursor mass yet. */
    constructor (title: string, precursorMz: real, precursorCharge: Option<I8>, retentionTime: Option<real>)
      ensures this.title == title && this.precursorMz == precursorMz && this.precursorCharge == precursorCharge
      ensures this.retentionTime == retentionTime && this.precursorMass == None
    {
      this.title := title;
      this.precursorMz := precursorMz;
      this.precursorCharge := precursorCharge;
      this.precursorMass := None;
      this.retentionTime := retentionTime;
    }

    function GetTitle(): string
      reads this
    {
      title
    }

    function GetPrecursorMz(): real
      reads this
    {
      precursorMz
    }

    function GetPrecursorCharge(): Option<I8>
      reads this
    {
      precursorCharge
    }

    function GetPrecursorMass(): Option<real>
      reads this
    {
      precursorMass
    }

    function GetRetentionTime(): Option<real>
      reads this
    {
      retentionTime
    }

    /** `set_precursor_mass`: the mass is set; nothing else changes. Returns the header itself. */
    method SetPrecursorMass(precursorMass: real) returns (r: MgfSpectrumHeader)
      modifies this
      ensures r == this && this.precursorMass == Some(precursorMass)
      ensures title == old(title) && precursorMz == old(precursorMz)
      ensures precursorCharge == old(precursorCharge) && retentionTime == old(retentionTime)
    {
      this.precursorMass := Some(precursorMass);
      r := this;
    }

    /**
      `calc_precursor_mass`: the mass of the precursor from its m/z and charge
      when the charge is known, none otherwise; nothing else changes.
     */
    method CalcPrecursorMass(mzToMass: (real, int) -> real) returns (r: MgfSpectrumHeader)
      modifies this
      ensures r == this
      ensures precursorMass.None? <==> precursorCharge.None?
      ensures precursorCharge.Some? ==> precursorMass == Some(mzToMass(precursorMz, precursorCharge.value))
      ensures title == old(title) && precursorMz == old(precursorMz)
      ensures precursorCharge == old(precursorCharge) && retentionTime == old(retentionTime)
    {
      precursorMass := match precursorCharge
        case Some(z) => Some(mzToMass(precursorMz, z))
        case None => None;
      r := this;
    }
  }

  class MgfSpectrum {
    const header: MgfSpectrumHeader
    var mzList: seq<real>
    var intensityList: seq<real>

    /** `MgfSpectrum::new`: a new header from the first four values, and the two lists stored unchanged. */
    constructor (title: string, precursorMz: real, precursorCharge: Option<I8>, retentionTime: Option<real>,
                 mzList: seq<real>, intensityList: seq<real>)
      ensures fresh(header)
      ensures Contents() == Spectrum(title, precursorMz, precursorCharge, retentionTime, mzList, intensityList)
      ensures header.GetPrecursorMass() == None
      ensures GetMzList() == mzList && GetIntensityList() == intensityList
    {
      header := new MgfSpectrumHeader(title, precursorMz, precursorCharge, retentionTime);
      this.mzList := mzList;
      this.intensityList := intensityList;
    }

    function GetMzList(): seq<real>
      reads this
    {
      mzList
    }

    function GetIntensityList(): seq<real>
      reads this
    {
      intensityList
    }

    /** The values the spectrum holds, as its getters give them (all but the precursor mass). */
    function Contents(): Spectrum
      reads this, header
    {
      Spectrum(header.GetTitle(), header.GetPrecursorMz(), header.GetPrecursorCharge(), header.GetRetentionTime(),
               GetMzList(), GetIntensityList())
    }
  }
}
