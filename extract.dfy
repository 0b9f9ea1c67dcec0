/** What one successfully opened light-curve file contributes: normalised
    flux, quality masks, momentum dumps, recentred centroids filtered by the
    `quality <= 0` mask, and the binned time and flux. */
module Extract {
  import opened Errors
  import opened Masks
  import opened Binning

  /** The columns of extension 1 and the header fields of extension 0 of one
      light-curve file, with the nan-aware medians of the flux and of the
      four centroid columns supplied as numbers. */
  datatype RawSector = RawSector(
    time: seq<real>,           // TIME
    pdcsapFlux: seq<real>,     // PDCSAP_FLUX
    pdcsapFluxErr: seq<real>,  // PDCSAP_FLUX_ERR
    quality: seq<int>,         // QUALITY
    sapBkg: seq<real>,         // SAP_BKG
    momCentr1: seq<real>,      // MOM_CENTR1
    momCentr2: seq<real>,      // MOM_CENTR2
    posCorr1: seq<real>,       // POS_CORR1
    posCorr2: seq<real>,       // POS_CORR2
    fluxMedian: real,
    centr1Median: real,
    centr2Median: real,
    corr1Median: real,
    corr2Median: real,
    sector: int,               // SECTOR
    tessmag: real,             // TESSMAG
    teff: real,                // TEFF
    radius: real)              // RADIUS

  /** Every column of a binary table has one entry per row, and the flux
      median is a number one can divide by. */
  predicate Consistent(r: RawSector) {
    && |r.pdcsapFlux| == |r.time|
    && |r.pdcsapFluxErr| == |r.time|
    && |r.quality| == |r.time|
    && |r.sapBkg| == |r.time|
    && |r.momCentr1| == |r.time|
    && |r.momCentr2| == |r.time|
    && |r.posCorr1| == |r.time|
    && |r.posCorr2| == |r.time|
    && r.fluxMedian != 0.0
  }

  type SectorRecord = r: RawSector | Consistent(r)
    witness RawSector([], [], [], [], [], [], [], [], [], 1.0, 0.0, 0.0, 0.0, 0.0, 0, 0.0, 0.0, 0.0)

  /** The per-sector values that `download_data` appends to its lists. */
  datatype SectorOut = SectorOut(
    time: seq<real>,
    flux: seq<real>,
    fluxErr: seq<real>,
    md: seq<real>,
    timeBinned: seq<real>,
    fluxBinned: seq<real>,
    x1: seq<real>,
    x2: seq<real>,
    y1: seq<real>,
    y2: seq<real>,
    timeL2: seq<real>,
    fbkg: seq<real>,
    startSec: seq<real>,
    endSec: seq<real>,
    sector: int,
    tessmag: real,
    teff: real,
    srad: real)

  /** `l = (quality > 0)`. */
  function GoodMask(quality: seq<int>): (m: seq<bool>)
    ensures |m| == |quality| && forall i :: 0 <= i < |quality| ==> m[i] == (quality[i] > 0)
  {
    seq(|quality|, i requires 0 <= i < |quality| => quality[i] > 0)
  }

  /** `l2 = (quality <= 0)`. */
  function BadMask(quality: seq<int>): (m: seq<bool>)
    ensures |m| == |quality| && forall i :: 0 <= i < |quality| ==> m[i] == (quality[i] <= 0)
  {
    seq(|quality|, i requires 0 <= i < |quality| => quality[i] <= 0)
  }

  /** Bit 5 (value 32) of a quality flag, read from its two's-complement
      representation: floor division by 32 shifts the bit to position 0. */
  predicate Bit5(q: int) {
    (q / 32) % 2 == 1
  }

  /** `np.bitwise_and(quality, 2**5) >= 1`. */
  function DumpMask(quality: seq<int>): (m: seq<bool>)
    ensures |m| == |quality| && forall i :: 0 <= i < |quality| ==> m[i] == Bit5(quality[i])
  {
    seq(|quality|, i requires 0 <= i < |quality| => Bit5(quality[i]))
  }

  /** Bitwise and of two non-negative integers, bit by bit from the lowest. */
  function BitAnd(a: nat, b: nat): nat
    decreases a
  {
    if a == 0 || b == 0 then 0
    else 2 * BitAnd(a / 2, b / 2) + (if a % 2 == 1 && b % 2 == 1 then 1 else 0)
  }

  /** The bit pattern of a 32-bit signed flag (the `QUALITY` column's
      type), read as an unsigned number. */
  function Int32Bits(q: int): nat
    requires -0x8000_0000 <= q < 0x8000_0000
  {
    if q < 0 then q + 0x1_0000_0000 else q
  }

  lemma AndOne(a: nat)
    ensures BitAnd(a, 1) == a % 2
  {
  }

  lemma {:induction false} AndDouble(a: nat, b: nat)
    requires b >= 1
    ensures BitAnd(a, 2 * b) == 2 * BitAnd(a / 2, b)
  {
    if a != 0 {
      assert (2 * b) / 2 == b && (2 * b) % 2 == 0;
    }
  }

  /** Anding with 32 keeps bit 5 and clears the others. */
  lemma AndThirtyTwo(a: nat)
    ensures BitAnd(a, 32) == 32 * ((a / 32) % 2)
  {
    AndDouble(a, 16);
    AndDouble(a / 2, 8);
    AndDouble(a / 4, 4);
    AndDouble(a / 8, 2);
    AndDouble(a / 16, 1);
    AndOne(a / 32);
    assert a / 2 / 2 == a / 4 && a / 4 / 2 == a / 8 && a / 8 / 2 == a / 16 && a / 16 / 2 == a / 32;
  }

  /** `Bit5` is the bitwise test on the flag's 32-bit pattern, negative
      flags included. */
  lemma DumpFlagIsBit5(q: int)
    requires -0x8000_0000 <= q < 0x8000_0000
    ensures BitAnd(Int32Bits(q), 32) >= 1 <==> Bit5(q)
  {
    var u := Int32Bits(q);
    AndThirtyTwo(u);
    if q < 0 {
      assert u / 32 == q / 32 + 0x800_0000;
    }
  }

  /** The dump mask is `np.bitwise_and(quality, 32) >= 1` on a column of
      32-bit flags. */
  lemma DumpMaskIsBitwiseAnd(quality: seq<int>)
    requires forall i :: 0 <= i < |quality| ==> -0x8000_0000 <= quality[i] < 0x8000_0000
    ensures forall i :: 0 <= i < |quality| ==> DumpMask(quality)[i] == (BitAnd(Int32Bits(quality[i]), 32) >= 1)
  {
    forall i | 0 <= i < |quality|
      ensures DumpMask(quality)[i] == (BitAnd(Int32Bits(quality[i]), 32) >= 1)
    {
      DumpFlagIsBit5(quality[i]);
    }
  }

  /** Division of every sample by the median. */
  function Normalised(xs: seq<real>, median: real): (r: seq<real>)
    requires median != 0.0
    ensures |r| == |xs|
  {
    seq(|xs|, i requires 0 <= i < |xs| => xs[i] / median)
  }

  lemma DivThenMul(x: real, m: real)
    requires m != 0.0
    ensures (x / m) * m == x
  {
  }

  /** The in-place `x -= np.nanmedian(x)`. */
  function Recentred(xs: seq<real>, median: real): (r: seq<real>)
    ensures |r| == |xs|
  {
    seq(|xs|, i requires 0 <= i < |xs| => xs[i] - median)
  }

  /** The body of the per-file loop of `download_data` for a file that
      opened. Binning fails, and with it the whole download, unless the bin
      factor is positive and the sector holds at least one full bin; the
      error is the one Python raises first. */
  function ExtractSector(r: SectorRecord, binfac: int): (res: Result<SectorOut>)
    ensures res.Ok? <==> binfac >= 1 && |r.time| >= binfac
    ensures binfac == 0 ==> res == Err(ZeroDivision)
    ensures binfac < 0 ==> res == Err(if |r.time| == 0 then ZeroDivision else ShapeMismatch)
    ensures binfac > 0 && |r.time| < binfac ==> res == Err(ZeroDivision)
  {
    if binfac == 0 then Err(ZeroDivision)
    else if binfac < 0 then (if |r.time| == 0 then Err(ZeroDivision) else Err(ShapeMismatch))
    else
      var count := |r.time|;
      var f1 := Normalised(r.pdcsapFlux, r.fluxMedian);
      var n := Truncated(count, binfac);
      RebinTruncated(r.time, binfac);
      RebinTruncated(f1, binfac);
      var timeBinned := Rebin(r.time[..n], n / binfac);
      var fluxBinned := Rebin(f1[..n], n / binfac);
      if timeBinned.Ok? && fluxBinned.Ok? then
        var l2 := BadMask(r.quality);
        Ok(SectorOut(
          r.time,
          f1,
          Normalised(r.pdcsapFluxErr, r.fluxMedian),
          Select(r.time, DumpMask(r.quality)),
          timeBinned.value,
          fluxBinned.value,
          Select(Recentred(r.momCentr1, r.centr1Median), l2),
          Select(Recentred(r.posCorr1, r.corr1Median), l2),
          Select(Recentred(r.momCentr2, r.centr2Median), l2),
          Select(Recentred(r.posCorr2, r.corr2Median), l2),
          Select(r.time, l2),
          r.sapBkg,
          [r.time[0]],
          [r.time[count - 1]],
          r.sector,
          r.tessmag,
          r.teff,
          r.radius))
      else Err(timeBinned.error)
  }

  /** The shape of what one sector contributes: full-length time, flux,
      error and background arrays, the dump times, the recentred centroid
      columns at the flagged cadences, the means of whole bins, the first and
      last times, and the header values. */
  lemma SectorShape(r: SectorRecord, binfac: int)
    requires binfac >= 1 && |r.time| >= binfac
    ensures var o := ExtractSector(r, binfac).value;
      && |o.time| == |o.flux| == |o.fluxErr| == |o.fbkg| == |r.time|
      && |o.md| == Count(DumpMask(r.quality))
      && |o.x1| == |o.x2| == |o.y1| == |o.y2| == |o.timeL2| == Count(BadMask(r.quality))
      && |o.timeBinned| == |o.fluxBinned| == |r.time| / binfac
      && o.time == r.time && o.fbkg == r.sapBkg
      && o.flux == Normalised(r.pdcsapFlux, r.fluxMedian) && o.fluxErr == Normalised(r.pdcsapFluxErr, r.fluxMedian)
      && o.md == Select(r.time, DumpMask(r.quality)) && o.timeL2 == Select(r.time, BadMask(r.quality))
      && o.x1 == Select(Recentred(r.momCentr1, r.centr1Median), BadMask(r.quality))
      && o.y1 == Select(Recentred(r.momCentr2, r.centr2Median), BadMask(r.quality))
      && o.x2 == Select(Recentred(r.posCorr1, r.corr1Median), BadMask(r.quality))
      && o.y2 == Select(Recentred(r.posCorr2, r.corr2Median), BadMask(r.quality))
      && o.startSec == [r.time[0]] && o.endSec == [r.time[|r.time| - 1]]
      && o.sector == r.sector && o.tessmag == r.tessmag && o.teff == r.teff && o.srad == r.radius
  {
    var n := Truncated(|r.time|, binfac);
    RebinTruncated(r.time, binfac);
  }

  /** Every sample is in exactly one of `l` (quality > 0) and `l2`
      (quality <= 0), so the two counts add up to the sample count. */
  lemma QualityPartition(quality: seq<int>)
    ensures forall i :: 0 <= i < |quality| ==> GoodMask(quality)[i] != BadMask(quality)[i]
    ensures Count(GoodMask(quality)) + Count(BadMask(quality)) == |quality|
  {
    assert BadMask(quality) == Negate(GoodMask(quality));
    CountPartition(GoodMask(quality));
  }

  /** The momentum-dump times are exactly the times of the samples whose
      quality flag has bit 5 set, in sample order. */
  lemma DumpTimes(r: SectorRecord, binfac: int)
    requires binfac >= 1 && |r.time| >= binfac
    ensures var o := ExtractSector(r, binfac).value; var ix := TrueIndices(DumpMask(r.quality));
      && |o.md| == |ix|
      && (forall k :: 0 <= k < |ix| ==> Bit5(r.quality[ix[k]]) && o.md[k] == r.time[ix[k]])
      && (forall k, l :: 0 <= k < l < |ix| ==> ix[k] < ix[l])
      && (forall i :: 0 <= i < |r.time| && Bit5(r.quality[i]) ==> i in ix)
  {
    SelectAt(r.time, DumpMask(r.quality));
    TrueIndicesExactly(DumpMask(r.quality));
  }

  /** The four recentred centroid series and their time stamps are taken at
      the same samples, those with quality <= 0, in sample order: they have
      one entry per such sample and stay index-aligned. */
  lemma CentroidsAligned(r: SectorRecord, binfac: int)
    requires binfac >= 1 && |r.time| >= binfac
    ensures var o := ExtractSector(r, binfac).value; var ix := TrueIndices(BadMask(r.quality));
      && |o.x1| == |o.x2| == |o.y1| == |o.y2| == |o.timeL2| == |ix|
      && (forall k :: 0 <= k < |ix| ==>
            && r.quality[ix[k]] <= 0
            && o.timeL2[k] == r.time[ix[k]]
            && o.x1[k] == r.momCentr1[ix[k]] - r.centr1Median
            && o.y1[k] == r.momCentr2[ix[k]] - r.centr2Median
            && o.x2[k] == r.posCorr1[ix[k]] - r.corr1Median
            && o.y2[k] == r.posCorr2[ix[k]] - r.corr2Median)
      && (forall k, l :: 0 <= k < l < |ix| ==> ix[k] < ix[l])
      && (forall i :: 0 <= i < |r.time| && r.quality[i] <= 0 ==> i in ix)
  {
    var l2 := BadMask(r.quality);
    SelectAt(r.time, l2);
    SelectAt(Recentred(r.momCentr1, r.centr1Median), l2);
    SelectAt(Recentred(r.momCentr2, r.centr2Median), l2);
    SelectAt(Recentred(r.posCorr1, r.corr1Median), l2);
    SelectAt(Recentred(r.posCorr2, r.corr2Median), l2);
    TrueIndicesExactly(l2);
  }

  /** Multiplying the normalised series back by the median gives the raw
      series; `SectorShape` says the flux and its error are normalised so. */
  lemma NormalisationInverts(xs: seq<real>, median: real)
    requires median != 0.0
    ensures forall i :: 0 <= i < |xs| ==> Normalised(xs, median)[i] * median == xs[i]
  {
    forall i | 0 <= i < |xs| ensures Normalised(xs, median)[i] * median == xs[i] {
      DivThenMul(xs[i], median);
    }
  }

  /** Binned element `i` is the mean of raw samples `[i*binfac, (i+1)*binfac)`,
      independently for time and for normalised flux. */
  lemma BinnedMeans(r: SectorRecord, binfac: int, i: nat)
    requires binfac >= 1 && |r.time| >= binfac && i < |r.time| / binfac
    ensures var o := ExtractSector(r, binfac).value; var f1 := Normalised(r.pdcsapFlux, r.fluxMedian);
      && (i + 1) * binfac <= |r.time|
      && o.timeBinned[i] == Mean(r.time[i * binfac..(i + 1) * binfac])
      && o.fluxBinned[i] == Mean(f1[i * binfac..(i + 1) * binfac])
  {
    RebinTruncatedAt(r.time, binfac, i);
    RebinTruncatedAt(Normalised(r.pdcsapFlux, r.fluxMedian), binfac, i);
  }
}
