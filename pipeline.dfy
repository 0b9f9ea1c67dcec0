/** `download_data` past the catalogue query and the sector location: build
    the links, fetch each file, extract what it contributes, and stitch the
    per-sector lists together in fetch order. */
module Pipeline {
  import opened Errors
  import opened Masks
  import opened SectorTable
  import opened Links
  import opened Extract

  /** The outcome of downloading and opening one link. */
  datatype Fetch = Failed | Fetched(record: SectorRecord)

  /** The fifteen accumulator lists, one entry per processed sector. */
  datatype Lists = Lists(
    time: seq<seq<real>>,
    flux: seq<seq<real>>,
    fluxErr: seq<seq<real>>,
    md: seq<seq<real>>,
    timeBinned: seq<seq<real>>,
    fluxBinned: seq<seq<real>>,
    x1: seq<seq<real>>,
    x2: seq<seq<real>>,
    y1: seq<seq<real>>,
    y2: seq<seq<real>>,
    timeL2: seq<seq<real>>,
    fbkg: seq<seq<real>>,
    startSec: seq<seq<real>>,
    endSec: seq<seq<real>>,
    inSec: seq<int>)

  /** The eighteen values `download_data` returns. */
  datatype LightCurve = LightCurve(
    time: seq<real>,
    flux: seq<real>,
    fluxErr: seq<real>,
    md: seq<real>,
    timeBinned: seq<real>,
    fluxBinned: seq<real>,
    x1: seq<real>,
    x2: seq<real>,
    y1: seq<real>,
    y2: seq<real>,
    timeL2: seq<real>,
    fbkg: seq<real>,
    startSec: seq<seq<real>>,
    endSec: seq<seq<real>>,
    inSec: seq<int>,
    tessmag: real,
    teff: real,
    srad: real)

  const NoLists := Lists([], [], [], [], [], [], [], [], [], [], [], [], [], [], [])

  /** The `append` calls of one loop iteration. */
  function Push(acc: Lists, o: SectorOut): Lists
  {
    Lists(acc.time + [o.time], acc.flux + [o.flux], acc.fluxErr + [o.fluxErr], acc.md + [o.md],
      acc.timeBinned + [o.timeBinned], acc.fluxBinned + [o.fluxBinned],
      acc.x1 + [o.x1], acc.x2 + [o.x2], acc.y1 + [o.y1], acc.y2 + [o.y2], acc.timeL2 + [o.timeL2],
      acc.fbkg + [o.fbkg], acc.startSec + [o.startSec], acc.endSec + [o.endSec], acc.inSec + [o.sector])
  }

  /** The accumulator lists after the given sectors, in order. */
  function StitchAll(outs: seq<SectorOut>): Lists
  {
    if outs == [] then NoLists else Push(StitchAll(outs[..|outs| - 1]), outs[|outs| - 1])
  }

  /** `np.hstack` of a list of one-dimensional arrays. */
  function Flatten(xss: seq<seq<real>>): seq<real>
  {
    if xss == [] then [] else Flatten(xss[..|xss| - 1]) + xss[|xss| - 1]
  }

  function Total(ns: seq<nat>): nat
  {
    if ns == [] then 0 else Total(ns[..|ns| - 1]) + ns[|ns| - 1]
  }

  /** The stitching after the loop, with the header values of the last
      processed sector. */
  function Finish(acc: Lists, tessmag: real, teff: real, srad: real): LightCurve
  {
    LightCurve(Flatten(acc.time), Flatten(acc.flux), Flatten(acc.fluxErr), Flatten(acc.md),
      Flatten(acc.timeBinned), Flatten(acc.fluxBinned), Flatten(acc.x1), Flatten(acc.x2),
      Flatten(acc.y1), Flatten(acc.y2), Flatten(acc.timeL2), Flatten(acc.fbkg),
      acc.startSec, acc.endSec, acc.inSec, tessmag, teff, srad)
  }

  /** What the loop body does with a file that opened. */
  type Extractor = SectorRecord -> Result<SectorOut>

  /** The per-file extraction with bin factor `binfac`. */
  function Extraction(binfac: int): Extractor
  {
    (r: SectorRecord) => ExtractSector(r, binfac)
  }

  /** The sectors the loop over `links` has processed, or the error that
      stopped it. A failed fetch is skipped, except in test mode, where the
      unguarded `pf.open` raises. */
  function Process(links: seq<string>, fetch: string -> Fetch, extract: Extractor, testMode: bool): Result<seq<SectorOut>>
  {
    if links == [] then Ok([])
    else
      match Process(links[..|links| - 1], fetch, extract, testMode)
      case Err(e) => Err(e)
      case Ok(done) =>
        var url := links[|links| - 1];
        match fetch(url)
        case Failed => if testMode then Err(FetchFailed(url)) else Ok(done)
        case Fetched(record) =>
          match extract(record)
          case Err(e) => Err(e)
          case Ok(o) => Ok(done + [o])
  }

  /** What the loop and the stitching after it make of the links. */
  function FromLinks(links: seq<string>, fetch: string -> Fetch, binfac: int, testMode: bool): Result<LightCurve>
  {
    match Process(links, fetch, Extraction(binfac), testMode)
    case Err(e) => Err(e)
    case Ok(outs) =>
      if outs == [] then Err(NoData)
      else Ok(Finish(StitchAll(outs), outs[|outs| - 1].tessmag, outs[|outs| - 1].teff, outs[|outs| - 1].srad))
  }

  /** What `download_data` returns for a target whose located sectors are
      `located`, when downloading link `u` gives `fetch(u)`. */
  function DownloadSpec(tic: nat, located: seq<int>, binfac: int, testMode: bool, fetch: string -> Fetch): Result<LightCurve>
  {
    var sectors := KeptSectors(located);
    if !AllCoded(SectorCodes, sectors) then Err(UnknownSector(sectors[FirstUncoded(SectorCodes, sectors)]))
    else FromLinks(LinksFor(SectorCodes, tic, sectors), fetch, binfac, testMode)
  }

  /** Once the loop has stopped on an error, later links change nothing. */
  lemma {:induction false} ErrorPersists(links: seq<string>, fetch: string -> Fetch, extract: Extractor, testMode: bool, k: nat)
    requires k <= |links| && Process(links[..k], fetch, extract, testMode).Err?
    ensures Process(links, fetch, extract, testMode) == Process(links[..k], fetch, extract, testMode)
    decreases |links| - k
  {
    if k < |links| {
      assert links[..k + 1][..k] == links[..k];
      ErrorPersists(links, fetch, extract, testMode, k + 1);
    } else {
      assert links[..k] == links;
    }
  }

  /** One iteration of the loop, as `Process` sees it. */
  lemma ProcessStep(links: seq<string>, fetch: string -> Fetch, extract: Extractor, testMode: bool, i: nat, done: seq<SectorOut>)
    requires i < |links| && Process(links[..i], fetch, extract, testMode) == Ok(done)
    ensures Process(links[..i + 1], fetch, extract, testMode) ==
      match fetch(links[i])
      case Failed => if testMode then Err(FetchFailed(links[i])) else Ok(done)
      case Fetched(record) =>
        match extract(record)
        case Err(e) => Err(e)
        case Ok(o) => Ok(done + [o])
  {
    assert links[..i + 1][..i] == links[..i];
  }

  lemma StitchPush(done: seq<SectorOut>, o: SectorOut)
    ensures StitchAll(done + [o]) == Push(StitchAll(done), o)
  {
    assert (done + [o])[..|done|] == done;
  }

  /** `download_data` for a target whose located sectors are `located`. */
  method DownloadData(tic: nat, located: seq<int>, binfac: int, testMode: bool, fetch: string -> Fetch)
    returns (r: Result<LightCurve>)
    ensures r == DownloadSpec(tic, located, binfac, testMode, fetch)
  {
    var built := BuildLinks(SectorCodes, tic, KeptSectors(located));
    if built.Err? {
      return Err(built.error);
    }
    r := CollectSectors(built.value, fetch, binfac, testMode);
  }

  /** The loop of `download_data` over the download links, with its fifteen
      accumulator lists, followed by the stitching. */
  method CollectSectors(links: seq<string>, fetch: string -> Fetch, binfac: int, testMode: bool)
    returns (r: Result<LightCurve>)
    ensures r == FromLinks(links, fetch, binfac, testMode)
  {

    var alltimebinned: seq<seq<real>> := [];
    var allfluxbinned: seq<seq<real>> := [];
    var allx1: seq<seq<real>> := [];
    var allx2: seq<seq<real>> := [];
    var ally1: seq<seq<real>> := [];
    var ally2: seq<seq<real>> := [];
    var alltimel2: seq<seq<real>> := [];
    var allfbkg: seq<seq<real>> := [];
    var startSec: seq<seq<real>> := [];
    var endSec: seq<seq<real>> := [];
    var inSec: seq<int> := [];
    var alltime: seq<seq<real>> := [];
    var allflux: seq<seq<real>> := [];
    var allfluxErr: seq<seq<real>> := [];
    var allMd: seq<seq<real>> := [];
    var tessmag, teff, srad := 0.0, 0.0, 0.0;
    ghost var done: seq<SectorOut> := [];

    for i := 0 to |links|
      invariant Process(links[..i], fetch, Extraction(binfac), testMode) == Ok(done)
      invariant StitchAll(done) == Lists(alltime, allflux, allfluxErr, allMd, alltimebinned, allfluxbinned,
        allx1, allx2, ally1, ally2, alltimel2, allfbkg, startSec, endSec, inSec)
      invariant done != [] ==> tessmag == done[|done| - 1].tessmag && teff == done[|done| - 1].teff && srad == done[|done| - 1].srad
    {
      var lcfile := links[i];
      ProcessStep(links, fetch, Extraction(binfac), testMode, i, done);
      var got := fetch(lcfile);
      if got.Failed? {
        if testMode {
          ErrorPersists(links, fetch, Extraction(binfac), testMode, i + 1);
          return Err(FetchFailed(lcfile));
        }
        continue;
      }
      var extracted := ExtractSector(got.record, binfac);
      if extracted.Err? {
        ErrorPersists(links, fetch, Extraction(binfac), testMode, i + 1);
        return Err(extracted.error);
      }
      var o := extracted.value;
      tessmag, teff, srad := o.tessmag, o.teff, o.srad;
      inSec := inSec + [o.sector];
      alltime := alltime + [o.time];
      allflux := allflux + [o.flux];
      allfluxErr := allfluxErr + [o.fluxErr];
      allMd := allMd + [o.md];
      alltimebinned := alltimebinned + [o.timeBinned];
      allfluxbinned := allfluxbinned + [o.fluxBinned];
      allx1 := allx1 + [o.x1];
      allx2 := allx2 + [o.x2];
      ally1 := ally1 + [o.y1];
      ally2 := ally2 + [o.y2];
      alltimel2 := alltimel2 + [o.timeL2];
      allfbkg := allfbkg + [o.fbkg];
      startSec := startSec + [o.startSec];
      endSec := endSec + [o.endSec];
      StitchPush(done, o);
      done := done + [o];
    }
    assert links[..|links|] == links;
    if inSec == [] {
      return Err(NoData);
    }
    var acc := Lists(alltime, allflux, allfluxErr, allMd, alltimebinned, allfluxbinned,
      allx1, allx2, ally1, ally2, alltimel2, allfbkg, startSec, endSec, inSec);
    return Ok(Finish(acc, tessmag, teff, srad));
  }

  // ---------------------------------------------------------------------
  // Reference definitions and lemmas about the loop and the stitching.

  /** The records of the links that could be fetched, in link order. */
  function Successes(links: seq<string>, fetch: string -> Fetch): (recs: seq<SectorRecord>)
    ensures |recs| <= |links|
  {
    if links == [] then []
    else
      Successes(links[..|links| - 1], fetch) +
        match fetch(links[|links| - 1])
        case Failed => []
        case Fetched(rec) => [rec]
  }

  /** Extracting every record in turn; the first failing record decides the
      error. */
  function ExtractAll(recs: seq<SectorRecord>, extract: Extractor): Result<seq<SectorOut>>
  {
    if recs == [] then Ok([])
    else
      match ExtractAll(recs[..|recs| - 1], extract)
      case Err(e) => Err(e)
      case Ok(done) =>
        match extract(recs[|recs| - 1])
        case Err(e) => Err(e)
        case Ok(o) => Ok(done + [o])
  }

  /** The record column `time`, one entry per record. */
  function Times(recs: seq<SectorRecord>): (ts: seq<seq<real>>)
    ensures |ts| == |recs| && forall k :: 0 <= k < |recs| ==> ts[k] == recs[k].time
  {
    seq(|recs|, k requires 0 <= k < |recs| => recs[k].time)
  }

  /** The normalised flux of every record. */
  function Fluxes(recs: seq<SectorRecord>): (fs: seq<seq<real>>)
    ensures |fs| == |recs| && forall k :: 0 <= k < |recs| ==> fs[k] == Normalised(recs[k].pdcsapFlux, recs[k].fluxMedian)
  {
    seq(|recs|, k requires 0 <= k < |recs| => Normalised(recs[k].pdcsapFlux, recs[k].fluxMedian))
  }

  /** The normalised flux error of every record. */
  function FluxErrors(recs: seq<SectorRecord>): (es: seq<seq<real>>)
    ensures |es| == |recs| && forall k :: 0 <= k < |recs| ==> es[k] == Normalised(recs[k].pdcsapFluxErr, recs[k].fluxMedian)
  {
    seq(|recs|, k requires 0 <= k < |recs| => Normalised(recs[k].pdcsapFluxErr, recs[k].fluxMedian))
  }

  /** The momentum-dump times of every record. */
  function DumpTimesOf(recs: seq<SectorRecord>): (ds: seq<seq<real>>)
    ensures |ds| == |recs| && forall k :: 0 <= k < |recs| ==> ds[k] == Select(recs[k].time, DumpMask(recs[k].quality))
  {
    seq(|recs|, k requires 0 <= k < |recs| => Select(recs[k].time, DumpMask(recs[k].quality)))
  }

  /** The times of the `quality <= 0` samples of every record. */
  function FlaggedTimes(recs: seq<SectorRecord>): (ts: seq<seq<real>>)
    ensures |ts| == |recs| && forall k :: 0 <= k < |recs| ==> ts[k] == Select(recs[k].time, BadMask(recs[k].quality))
  {
    seq(|recs|, k requires 0 <= k < |recs| => Select(recs[k].time, BadMask(recs[k].quality)))
  }

  /** A recentred centroid column at the `quality <= 0` samples. */
  function FlaggedCentroid(xs: seq<real>, median: real, quality: seq<int>): seq<real>
    requires |xs| == |quality|
  {
    Select(Recentred(xs, median), BadMask(quality))
  }

  /** `MOM_CENTR1`, `MOM_CENTR2`, `POS_CORR1` and `POS_CORR2` of every
      record, recentred and taken at the `quality <= 0` samples. */
  function CentroidsX1(recs: seq<SectorRecord>): (cs: seq<seq<real>>)
    ensures |cs| == |recs| && forall k :: 0 <= k < |recs| ==>
      cs[k] == FlaggedCentroid(recs[k].momCentr1, recs[k].centr1Median, recs[k].quality)
  {
    seq(|recs|, k requires 0 <= k < |recs| => FlaggedCentroid(recs[k].momCentr1, recs[k].centr1Median, recs[k].quality))
  }

  function CentroidsY1(recs: seq<SectorRecord>): (cs: seq<seq<real>>)
    ensures |cs| == |recs| && forall k :: 0 <= k < |recs| ==>
      cs[k] == FlaggedCentroid(recs[k].momCentr2, recs[k].centr2Median, recs[k].quality)
  {
    seq(|recs|, k requires 0 <= k < |recs| => FlaggedCentroid(recs[k].momCentr2, recs[k].centr2Median, recs[k].quality))
  }

  function CentroidsX2(recs: seq<SectorRecord>): (cs: seq<seq<real>>)
    ensures |cs| == |recs| && forall k :: 0 <= k < |recs| ==>
      cs[k] == FlaggedCentroid(recs[k].posCorr1, recs[k].corr1Median, recs[k].quality)
  {
    seq(|recs|, k requires 0 <= k < |recs| => FlaggedCentroid(recs[k].posCorr1, recs[k].corr1Median, recs[k].quality))
  }

  function CentroidsY2(recs: seq<SectorRecord>): (cs: seq<seq<real>>)
    ensures |cs| == |recs| && forall k :: 0 <= k < |recs| ==>
      cs[k] == FlaggedCentroid(recs[k].posCorr2, recs[k].corr2Median, recs[k].quality)
  {
    seq(|recs|, k requires 0 <= k < |recs| => FlaggedCentroid(recs[k].posCorr2, recs[k].corr2Median, recs[k].quality))
  }

  /** The sample count `N` of every record. */
  function SampleCounts(recs: seq<SectorRecord>): (ns: seq<nat>)
    ensures |ns| == |recs| && forall k :: 0 <= k < |recs| ==> ns[k] == |recs[k].time|
  {
    seq(|recs|, k requires 0 <= k < |recs| => |recs[k].time|)
  }

  /** The record column `SAP_BKG`, one entry per record. */
  function Backgrounds(recs: seq<SectorRecord>): (bs: seq<seq<real>>)
    ensures |bs| == |recs| && forall k :: 0 <= k < |recs| ==> bs[k] == recs[k].sapBkg
  {
    seq(|recs|, k requires 0 <= k < |recs| => recs[k].sapBkg)
  }

  /** Extraction of all records succeeds exactly when it succeeds on each. */
  lemma {:induction false} ExtractAllOk(recs: seq<SectorRecord>, extract: Extractor)
    ensures ExtractAll(recs, extract).Ok? <==> forall k :: 0 <= k < |recs| ==> extract(recs[k]).Ok?
  {
    if recs != [] {
      var init := recs[..|recs| - 1];
      ExtractAllOk(init, extract);
      assert ExtractAll(recs, extract).Ok? <==>
        ExtractAll(init, extract).Ok? && extract(recs[|recs| - 1]).Ok?;
      assert forall k :: 0 <= k < |init| ==> recs[k] == init[k];
    }
  }

  /** A successful extraction yields one sector per record, in order. */
  lemma {:induction false} ExtractAllValues(recs: seq<SectorRecord>, extract: Extractor)
    requires ExtractAll(recs, extract).Ok?
    ensures var outs := ExtractAll(recs, extract).value;
      |outs| == |recs| && forall k :: 0 <= k < |recs| ==> Ok(outs[k]) == extract(recs[k])
  {
    if recs != [] {
      var init := recs[..|recs| - 1];
      ExtractAllValues(init, extract);
      var done := ExtractAll(init, extract).value;
      var last := extract(recs[|recs| - 1]);
      assert ExtractAll(recs, extract) == Ok(done + [last.value]);
      assert forall k :: 0 <= k < |init| ==> recs[k] == init[k] && (done + [last.value])[k] == done[k];
    }
  }

  /** Outside test mode a file that cannot be fetched contributes nothing:
      the loop is extraction over the files that could be fetched. */
  lemma {:induction false} SkipsFailures(links: seq<string>, fetch: string -> Fetch, extract: Extractor)
    ensures Process(links, fetch, extract, false) == ExtractAll(Successes(links, fetch), extract)
  {
    if links != [] {
      var init := links[..|links| - 1];
      SkipsFailures(init, fetch, extract);
      var recs := Successes(init, fetch);
      match fetch(links[|links| - 1])
      case Failed =>
        assert Successes(links, fetch) == recs;
      case Fetched(rec) =>
        assert Successes(links, fetch) == recs + [rec];
        assert (recs + [rec])[..|recs|] == recs;
    }
  }

  /** In test mode the loop completes only when every file could be
      fetched. */
  lemma {:induction false} TestModeNeedsEveryFile(links: seq<string>, fetch: string -> Fetch, extract: Extractor)
    requires Process(links, fetch, extract, true).Ok?
    ensures forall i :: 0 <= i < |links| ==> fetch(links[i]).Fetched?
  {
    if links != [] {
      var init := links[..|links| - 1];
      assert Process(init, fetch, extract, true).Ok? && fetch(links[|links| - 1]).Fetched?;
      TestModeNeedsEveryFile(init, fetch, extract);
      assert forall i :: 0 <= i < |init| ==> init[i] == links[i];
    }
  }

  /** When every file can be fetched, test mode and normal mode agree. */
  lemma {:induction false} ModesAgreeWithoutFailures(links: seq<string>, fetch: string -> Fetch, extract: Extractor)
    requires forall i :: 0 <= i < |links| ==> fetch(links[i]).Fetched?
    ensures Process(links, fetch, extract, true) == Process(links, fetch, extract, false)
  {
    if links != [] {
      var init := links[..|links| - 1];
      assert forall i :: 0 <= i < |init| ==> init[i] == links[i];
      ModesAgreeWithoutFailures(init, fetch, extract);
    }
  }

  /** In test mode the first file that cannot be fetched ends the run with
      its link, unless an earlier extraction failed. */
  lemma {:induction false} TestModeFirstFailure(links: seq<string>, fetch: string -> Fetch, extract: Extractor, i: nat)
    requires i < |links| && fetch(links[i]).Failed?
    requires forall j :: 0 <= j < i ==> fetch(links[j]).Fetched?
    requires Process(links[..i], fetch, extract, true).Ok?
    ensures Process(links, fetch, extract, true) == Err(FetchFailed(links[i]))
  {
    assert links[..i + 1][..i] == links[..i];
    ErrorPersists(links, fetch, extract, true, i + 1);
  }

  /** Each accumulator list holds one entry per processed sector. */
  lemma {:induction false} StitchAllLengths(outs: seq<SectorOut>)
    ensures var acc := StitchAll(outs);
      && |acc.time| == |acc.flux| == |acc.fluxErr| == |acc.md| == |outs|
      && |acc.timeBinned| == |acc.fluxBinned| == |acc.fbkg| == |outs|
      && |acc.x1| == |acc.x2| == |acc.y1| == |acc.y2| == |acc.timeL2| == |outs|
      && |acc.startSec| == |acc.endSec| == |acc.inSec| == |outs|
  {
    if outs != [] {
      StitchAllLengths(outs[..|outs| - 1]);
    }
  }

  /** Entry `k` of every accumulator list comes from processed sector `k`. */
  lemma {:induction false} StitchAllAt(outs: seq<SectorOut>, k: nat)
    requires k < |outs|
    ensures var acc := StitchAll(outs);
      && k < |acc.time| && k < |acc.flux| && k < |acc.fluxErr| && k < |acc.md|
      && k < |acc.timeBinned| && k < |acc.fluxBinned| && k < |acc.x1| && k < |acc.x2|
      && k < |acc.y1| && k < |acc.y2| && k < |acc.timeL2| && k < |acc.fbkg|
      && k < |acc.startSec| && k < |acc.endSec| && k < |acc.inSec|
      && acc.time[k] == outs[k].time && acc.flux[k] == outs[k].flux && acc.fluxErr[k] == outs[k].fluxErr
      && acc.md[k] == outs[k].md && acc.timeBinned[k] == outs[k].timeBinned
      && acc.fluxBinned[k] == outs[k].fluxBinned && acc.x1[k] == outs[k].x1 && acc.x2[k] == outs[k].x2
      && acc.y1[k] == outs[k].y1 && acc.y2[k] == outs[k].y2 && acc.timeL2[k] == outs[k].timeL2
      && acc.fbkg[k] == outs[k].fbkg && acc.startSec[k] == outs[k].startSec
      && acc.endSec[k] == outs[k].endSec && acc.inSec[k] == outs[k].sector
  {
    var init := outs[..|outs| - 1];
    StitchAllLengths(init);
    if k < |init| {
      StitchAllAt(init, k);
      assert outs[k] == init[k];
    }
  }

  lemma {:induction false} FlattenAppend(xss: seq<seq<real>>, yss: seq<seq<real>>)
    ensures Flatten(xss + yss) == Flatten(xss) + Flatten(yss)
    decreases |yss|
  {
    if yss == [] {
      assert xss + yss == xss;
    } else {
      var init := yss[..|yss| - 1];
      assert (xss + yss)[..|xss + yss| - 1] == xss + init;
      FlattenAppend(xss, init);
    }
  }

  /** Stacking two lists of arrays whose arrays have pairwise equal lengths
      gives arrays of equal length. */
  lemma {:induction false} FlattenSameShape(xss: seq<seq<real>>, yss: seq<seq<real>>)
    requires |xss| == |yss| && forall k :: 0 <= k < |xss| ==> |xss[k]| == |yss[k]|
    ensures |Flatten(xss)| == |Flatten(yss)|
  {
    if xss != [] {
      FlattenSameShape(xss[..|xss| - 1], yss[..|yss| - 1]);
    }
  }

  /** The stacked array is as long as its pieces together. */
  lemma {:induction false} FlattenLength(xss: seq<seq<real>>, ns: seq<nat>)
    requires |ns| == |xss| && forall k :: 0 <= k < |xss| ==> ns[k] == |xss[k]|
    ensures |Flatten(xss)| == Total(ns)
  {
    if xss != [] {
      FlattenLength(xss[..|xss| - 1], ns[..|ns| - 1]);
    }
  }

  /** Outside test mode the stacked time, flux and flux-error arrays hold
      one sample per sample of the fetched files. */
  lemma StitchedLength(links: seq<string>, fetch: string -> Fetch, binfac: int)
    requires var recs := Successes(links, fetch);
      |recs| > 0 && binfac >= 1 && forall k :: 0 <= k < |recs| ==> |recs[k].time| >= binfac
    ensures FromLinks(links, fetch, binfac, false).Ok?
    ensures var lc := FromLinks(links, fetch, binfac, false).value; var total := Total(SampleCounts(Successes(links, fetch)));
      |lc.time| == total && |lc.flux| == total && |lc.fluxErr| == total
  {
    var recs := Successes(links, fetch);
    SkippingResult(links, fetch, binfac);
    var lc := FromLinks(links, fetch, binfac, false).value;
    FlattenLength(Times(recs), SampleCounts(recs));
    assert |lc.time| == Total(SampleCounts(recs));
  }

  /** The shape the extraction gives one sector's arrays. */
  predicate WellShaped(o: SectorOut)
  {
    && |o.time| == |o.flux| == |o.fluxErr| == |o.fbkg|
    && |o.timeBinned| == |o.fluxBinned|
    && |o.x1| == |o.x2| == |o.y1| == |o.y2| == |o.timeL2|
  }

  /** Stacking keeps the arrays that belong together aligned. */
  lemma FinishAligned(outs: seq<SectorOut>, tessmag: real, teff: real, srad: real)
    requires forall k :: 0 <= k < |outs| ==> WellShaped(outs[k])
    ensures var lc := Finish(StitchAll(outs), tessmag, teff, srad);
      && |lc.time| == |lc.flux| == |lc.fluxErr| == |lc.fbkg|
      && |lc.timeBinned| == |lc.fluxBinned|
      && |lc.x1| == |lc.x2| == |lc.y1| == |lc.y2| == |lc.timeL2|
      && |lc.startSec| == |lc.endSec| == |lc.inSec| == |outs|
  {
    var acc := StitchAll(outs);
    StitchAllLengths(outs);
    forall k | 0 <= k < |outs|
      ensures acc.time[k] == outs[k].time && acc.flux[k] == outs[k].flux && acc.fluxErr[k] == outs[k].fluxErr
      ensures acc.fbkg[k] == outs[k].fbkg && acc.timeBinned[k] == outs[k].timeBinned
      ensures acc.fluxBinned[k] == outs[k].fluxBinned && acc.x1[k] == outs[k].x1 && acc.x2[k] == outs[k].x2
      ensures acc.y1[k] == outs[k].y1 && acc.y2[k] == outs[k].y2 && acc.timeL2[k] == outs[k].timeL2
    {
      StitchAllAt(outs, k);
    }
    FlattenSameShape(acc.time, acc.flux);
    FlattenSameShape(acc.time, acc.fluxErr);
    FlattenSameShape(acc.time, acc.fbkg);
    FlattenSameShape(acc.timeBinned, acc.fluxBinned);
    FlattenSameShape(acc.x1, acc.x2);
    FlattenSameShape(acc.x1, acc.y1);
    FlattenSameShape(acc.x1, acc.y2);
    FlattenSameShape(acc.x1, acc.timeL2);
  }

  /** Outside test mode the run succeeds exactly when some file could be
      fetched, the bin factor is positive and no fetched sector is shorter
      than it; when no file could be fetched it fails for lack of data. */
  lemma SkippingOutcome(links: seq<string>, fetch: string -> Fetch, binfac: int)
    ensures var recs := Successes(links, fetch);
      FromLinks(links, fetch, binfac, false).Ok? <==>
        |recs| > 0 && binfac >= 1 && forall k :: 0 <= k < |recs| ==> |recs[k].time| >= binfac
    ensures Successes(links, fetch) == [] ==> FromLinks(links, fetch, binfac, false) == Err(NoData)
  {
    var recs := Successes(links, fetch);
    SkipsFailures(links, fetch, Extraction(binfac));
    ExtractAllOk(recs, Extraction(binfac));
  }

  /** What the extraction of record `r` passes on unchanged, and the
      alignment of its arrays. */
  predicate Describes(o: SectorOut, r: SectorRecord)
  {
    && WellShaped(o)
    && o.time == r.time && o.fbkg == r.sapBkg && o.sector == r.sector
    && |r.time| > 0 && o.startSec == [r.time[0]] && o.endSec == [r.time[|r.time| - 1]]
    && o.tessmag == r.tessmag && o.teff == r.teff && o.srad == r.radius
  }

  /** The normalised flux and error, the dump times and the `quality <= 0`
      times of the record. */
  predicate CarriesSignals(o: SectorOut, r: SectorRecord)
  {
    && o.flux == Normalised(r.pdcsapFlux, r.fluxMedian) && o.fluxErr == Normalised(r.pdcsapFluxErr, r.fluxMedian)
    && o.md == Select(r.time, DumpMask(r.quality)) && o.timeL2 == Select(r.time, BadMask(r.quality))
  }

  /** The recentred centroid columns of the record at its `quality <= 0`
      samples. */
  predicate CarriesCentroids(o: SectorOut, r: SectorRecord)
  {
    && o.x1 == FlaggedCentroid(r.momCentr1, r.centr1Median, r.quality)
    && o.y1 == FlaggedCentroid(r.momCentr2, r.centr2Median, r.quality)
    && o.x2 == FlaggedCentroid(r.posCorr1, r.corr1Median, r.quality)
    && o.y2 == FlaggedCentroid(r.posCorr2, r.corr2Median, r.quality)
  }

  lemma ExtractedDescribes(recs: seq<SectorRecord>, binfac: int)
    requires binfac >= 1 && forall k :: 0 <= k < |recs| ==> |recs[k].time| >= binfac
    ensures ExtractAll(recs, Extraction(binfac)).Ok?
    ensures var outs := ExtractAll(recs, Extraction(binfac)).value;
      |outs| == |recs| && forall k :: 0 <= k < |outs| ==> Describes(outs[k], recs[k])
  {
    ExtractAllOk(recs, Extraction(binfac));
    ExtractAllValues(recs, Extraction(binfac));
    var outs := ExtractAll(recs, Extraction(binfac)).value;
    forall k | 0 <= k < |outs|
      ensures Describes(outs[k], recs[k])
    {
      SectorShape(recs[k], binfac);
    }
  }

  lemma ExtractedSignals(recs: seq<SectorRecord>, binfac: int)
    requires binfac >= 1 && forall k :: 0 <= k < |recs| ==> |recs[k].time| >= binfac
    ensures ExtractAll(recs, Extraction(binfac)).Ok?
    ensures var outs := ExtractAll(recs, Extraction(binfac)).value;
      |outs| == |recs| && forall k :: 0 <= k < |outs| ==> CarriesSignals(outs[k], recs[k])
  {
    ExtractAllOk(recs, Extraction(binfac));
    ExtractAllValues(recs, Extraction(binfac));
    var outs := ExtractAll(recs, Extraction(binfac)).value;
    forall k | 0 <= k < |outs|
      ensures CarriesSignals(outs[k], recs[k])
    {
      SectorShape(recs[k], binfac);
    }
  }

  lemma ExtractedCentroids(recs: seq<SectorRecord>, binfac: int)
    requires binfac >= 1 && forall k :: 0 <= k < |recs| ==> |recs[k].time| >= binfac
    ensures ExtractAll(recs, Extraction(binfac)).Ok?
    ensures var outs := ExtractAll(recs, Extraction(binfac)).value;
      |outs| == |recs| && forall k :: 0 <= k < |outs| ==> CarriesCentroids(outs[k], recs[k])
  {
    ExtractAllOk(recs, Extraction(binfac));
    ExtractAllValues(recs, Extraction(binfac));
    var outs := ExtractAll(recs, Extraction(binfac)).value;
    forall k | 0 <= k < |outs|
      ensures CarriesCentroids(outs[k], recs[k])
    {
      SectorShape(recs[k], binfac);
    }
  }

  /** What stacking the sectors gives, record by record. */
  lemma StackedRecords(outs: seq<SectorOut>, recs: seq<SectorRecord>)
    requires |outs| == |recs| && forall k :: 0 <= k < |outs| ==> Describes(outs[k], recs[k])
    ensures var acc := StitchAll(outs);
      && acc.time == Times(recs)
      && acc.fbkg == Backgrounds(recs)
      && |acc.inSec| == |acc.startSec| == |acc.endSec| == |recs|
      && (forall k :: 0 <= k < |recs| ==>
            && acc.inSec[k] == recs[k].sector
            && |recs[k].time| > 0
            && acc.startSec[k] == [recs[k].time[0]]
            && acc.endSec[k] == [recs[k].time[|recs[k].time| - 1]])
  {
    var acc := StitchAll(outs);
    StitchAllLengths(outs);
    forall k | 0 <= k < |outs|
      ensures acc.time[k] == outs[k].time && acc.fbkg[k] == outs[k].fbkg && acc.inSec[k] == outs[k].sector
      ensures acc.startSec[k] == outs[k].startSec && acc.endSec[k] == outs[k].endSec
    {
      StitchAllAt(outs, k);
    }
  }

  /** The stacked normalised flux. */
  lemma StackedFlux(outs: seq<SectorOut>, recs: seq<SectorRecord>)
    requires |outs| == |recs| && forall k :: 0 <= k < |outs| ==> CarriesSignals(outs[k], recs[k])
    ensures StitchAll(outs).flux == Fluxes(recs)
  {
    var acc := StitchAll(outs);
    StitchAllLengths(outs);
    forall k | 0 <= k < |outs| ensures acc.flux[k] == Fluxes(recs)[k] {
      StitchAllAt(outs, k);
      assert CarriesSignals(outs[k], recs[k]);
    }
  }

  /** The stacked normalised flux error. */
  lemma StackedFluxErr(outs: seq<SectorOut>, recs: seq<SectorRecord>)
    requires |outs| == |recs| && forall k :: 0 <= k < |outs| ==> CarriesSignals(outs[k], recs[k])
    ensures StitchAll(outs).fluxErr == FluxErrors(recs)
  {
    var acc := StitchAll(outs);
    StitchAllLengths(outs);
    forall k | 0 <= k < |outs| ensures acc.fluxErr[k] == FluxErrors(recs)[k] {
      StitchAllAt(outs, k);
      assert CarriesSignals(outs[k], recs[k]);
    }
  }

  /** The stacked momentum-dump times. */
  lemma StackedDumpTimes(outs: seq<SectorOut>, recs: seq<SectorRecord>)
    requires |outs| == |recs| && forall k :: 0 <= k < |outs| ==> CarriesSignals(outs[k], recs[k])
    ensures StitchAll(outs).md == DumpTimesOf(recs)
  {
    var acc := StitchAll(outs);
    StitchAllLengths(outs);
    forall k | 0 <= k < |outs| ensures acc.md[k] == DumpTimesOf(recs)[k] {
      StitchAllAt(outs, k);
      assert CarriesSignals(outs[k], recs[k]);
    }
  }

  /** The stacked `quality <= 0` times. */
  lemma StackedFlaggedTimes(outs: seq<SectorOut>, recs: seq<SectorRecord>)
    requires |outs| == |recs| && forall k :: 0 <= k < |outs| ==> CarriesSignals(outs[k], recs[k])
    ensures StitchAll(outs).timeL2 == FlaggedTimes(recs)
  {
    var acc := StitchAll(outs);
    StitchAllLengths(outs);
    forall k | 0 <= k < |outs| ensures acc.timeL2[k] == FlaggedTimes(recs)[k] {
      StitchAllAt(outs, k);
      assert CarriesSignals(outs[k], recs[k]);
    }
  }

  /** The stacked flux, flux error, dump and `quality <= 0` time lists,
      record by record. */
  lemma StackedSignals(outs: seq<SectorOut>, recs: seq<SectorRecord>)
    requires |outs| == |recs| && forall k :: 0 <= k < |outs| ==> CarriesSignals(outs[k], recs[k])
    ensures var acc := StitchAll(outs);
      && acc.flux == Fluxes(recs) && acc.fluxErr == FluxErrors(recs)
      && acc.md == DumpTimesOf(recs) && acc.timeL2 == FlaggedTimes(recs)
  {
    StackedFlux(outs, recs);
    StackedFluxErr(outs, recs);
    StackedDumpTimes(outs, recs);
    StackedFlaggedTimes(outs, recs);
  }



  /** The stacked `MOM_CENTR1` column at the `quality <= 0` samples. */
  lemma StackedX1(outs: seq<SectorOut>, recs: seq<SectorRecord>)
    requires |outs| == |recs| && forall k :: 0 <= k < |outs| ==> CarriesCentroids(outs[k], recs[k])
    ensures StitchAll(outs).x1 == CentroidsX1(recs)
  {
    var acc := StitchAll(outs);
    StitchAllLengths(outs);
    forall k | 0 <= k < |outs| ensures acc.x1[k] == CentroidsX1(recs)[k] {
      StitchAllAt(outs, k);
      assert CarriesCentroids(outs[k], recs[k]);
    }
  }

  /** The stacked `MOM_CENTR2` column at the `quality <= 0` samples. */
  lemma StackedY1(outs: seq<SectorOut>, recs: seq<SectorRecord>)
    requires |outs| == |recs| && forall k :: 0 <= k < |outs| ==> CarriesCentroids(outs[k], recs[k])
    ensures StitchAll(outs).y1 == CentroidsY1(recs)
  {
    var acc := StitchAll(outs);
    StitchAllLengths(outs);
    forall k | 0 <= k < |outs| ensures acc.y1[k] == CentroidsY1(recs)[k] {
      StitchAllAt(outs, k);
      assert CarriesCentroids(outs[k], recs[k]);
    }
  }

  /** The stacked `POS_CORR1` column at the `quality <= 0` samples. */
  lemma StackedX2(outs: seq<SectorOut>, recs: seq<SectorRecord>)
    requires |outs| == |recs| && forall k :: 0 <= k < |outs| ==> CarriesCentroids(outs[k], recs[k])
    ensures StitchAll(outs).x2 == CentroidsX2(recs)
  {
    var acc := StitchAll(outs);
    StitchAllLengths(outs);
    forall k | 0 <= k < |outs| ensures acc.x2[k] == CentroidsX2(recs)[k] {
      StitchAllAt(outs, k);
      assert CarriesCentroids(outs[k], recs[k]);
    }
  }

  /** The stacked `POS_CORR2` column at the `quality <= 0` samples. */
  lemma StackedY2(outs: seq<SectorOut>, recs: seq<SectorRecord>)
    requires |outs| == |recs| && forall k :: 0 <= k < |outs| ==> CarriesCentroids(outs[k], recs[k])
    ensures StitchAll(outs).y2 == CentroidsY2(recs)
  {
    var acc := StitchAll(outs);
    StitchAllLengths(outs);
    forall k | 0 <= k < |outs| ensures acc.y2[k] == CentroidsY2(recs)[k] {
      StitchAllAt(outs, k);
      assert CarriesCentroids(outs[k], recs[k]);
    }
  }

  /** The stacked centroid lists, record by record. */
  lemma StackedCentroids(outs: seq<SectorOut>, recs: seq<SectorRecord>)
    requires |outs| == |recs| && forall k :: 0 <= k < |outs| ==> CarriesCentroids(outs[k], recs[k])
    ensures var acc := StitchAll(outs);
      && acc.x1 == CentroidsX1(recs) && acc.y1 == CentroidsY1(recs)
      && acc.x2 == CentroidsX2(recs) && acc.y2 == CentroidsY2(recs)
  {
    StackedX1(outs, recs);
    StackedY1(outs, recs);
    StackedX2(outs, recs);
    StackedY2(outs, recs);
  }



  /** Outside test mode a successful run stacks, in link order, the
      normalised fluxes and errors, the dump times and the `quality <= 0`
      times of the fetched files. */
  lemma SkippingSignals(links: seq<string>, fetch: string -> Fetch, binfac: int)
    requires var recs := Successes(links, fetch);
      |recs| > 0 && binfac >= 1 && forall k :: 0 <= k < |recs| ==> |recs[k].time| >= binfac
    ensures FromLinks(links, fetch, binfac, false).Ok?
    ensures var recs := Successes(links, fetch); var lc := FromLinks(links, fetch, binfac, false).value;
      && lc.flux == Flatten(Fluxes(recs)) && lc.fluxErr == Flatten(FluxErrors(recs))
      && lc.md == Flatten(DumpTimesOf(recs)) && lc.timeL2 == Flatten(FlaggedTimes(recs))
  {
    var recs := Successes(links, fetch);
    SkippingOutcome(links, fetch, binfac);
    SkipsFailures(links, fetch, Extraction(binfac));
    ExtractedSignals(recs, binfac);
    var outs := ExtractAll(recs, Extraction(binfac)).value;
    StackedSignals(outs, recs);
    var last := outs[|outs| - 1];
    assert FromLinks(links, fetch, binfac, false).value == Finish(StitchAll(outs), last.tessmag, last.teff, last.srad);
  }

  /** Outside test mode a successful run stacks, in link order, the four
      recentred centroid columns of the fetched files at their
      `quality <= 0` samples. */
  lemma SkippingCentroids(links: seq<string>, fetch: string -> Fetch, binfac: int)
    requires var recs := Successes(links, fetch);
      |recs| > 0 && binfac >= 1 && forall k :: 0 <= k < |recs| ==> |recs[k].time| >= binfac
    ensures FromLinks(links, fetch, binfac, false).Ok?
    ensures var recs := Successes(links, fetch); var lc := FromLinks(links, fetch, binfac, false).value;
      && lc.x1 == Flatten(CentroidsX1(recs)) && lc.y1 == Flatten(CentroidsY1(recs))
      && lc.x2 == Flatten(CentroidsX2(recs)) && lc.y2 == Flatten(CentroidsY2(recs))
  {
    var recs := Successes(links, fetch);
    SkippingOutcome(links, fetch, binfac);
    SkipsFailures(links, fetch, Extraction(binfac));
    ExtractedCentroids(recs, binfac);
    var outs := ExtractAll(recs, Extraction(binfac)).value;
    StackedCentroids(outs, recs);
    var last := outs[|outs| - 1];
    assert FromLinks(links, fetch, binfac, false).value == Finish(StitchAll(outs), last.tessmag, last.teff, last.srad);
  }

  /** Outside test mode a successful run stacks the fetched sectors in link
      order: the times and backgrounds are those of the fetched files one
      after another (`SkippingSignals` and `SkippingCentroids` give the other
      arrays), the sector list and the first and last times have one
      entry per fetched file, the arrays that belong together stay aligned,
      and the star parameters are those of the last fetched file. */
  lemma SkippingResult(links: seq<string>, fetch: string -> Fetch, binfac: int)
    requires var recs := Successes(links, fetch);
      |recs| > 0 && binfac >= 1 && forall k :: 0 <= k < |recs| ==> |recs[k].time| >= binfac
    ensures FromLinks(links, fetch, binfac, false).Ok?
    ensures var recs := Successes(links, fetch); var lc := FromLinks(links, fetch, binfac, false).value;
      && lc.time == Flatten(Times(recs))
      && lc.fbkg == Flatten(Backgrounds(recs))
      && |lc.inSec| == |lc.startSec| == |lc.endSec| == |recs|
      && (forall k :: 0 <= k < |recs| ==>
            && lc.inSec[k] == recs[k].sector
            && |recs[k].time| > 0
            && lc.startSec[k] == [recs[k].time[0]]
            && lc.endSec[k] == [recs[k].time[|recs[k].time| - 1]])
      && |lc.time| == |lc.flux| == |lc.fluxErr| == |lc.fbkg|
      && |lc.timeBinned| == |lc.fluxBinned|
      && |lc.x1| == |lc.x2| == |lc.y1| == |lc.y2| == |lc.timeL2|
      && lc.tessmag == recs[|recs| - 1].tessmag
      && lc.teff == recs[|recs| - 1].teff
      && lc.srad == recs[|recs| - 1].radius
  {
    var recs := Successes(links, fetch);
    SkippingOutcome(links, fetch, binfac);
    SkipsFailures(links, fetch, Extraction(binfac));
    ExtractedDescribes(recs, binfac);
    var outs := ExtractAll(recs, Extraction(binfac)).value;
    StackedRecords(outs, recs);
    FinishAligned(outs, outs[|outs| - 1].tessmag, outs[|outs| - 1].teff, outs[|outs| - 1].srad);
  }

  /** A located sector below 1 has no codes, so the run stops with the
      lookup error for a non-positive sector; when every located sector is
      positive, all links are built and the run is the loop over them. */
  lemma SectorSelection(tic: nat, located: seq<int>, binfac: int, testMode: bool, fetch: string -> Fetch)
    ensures (exists i :: 0 <= i < |located| && located[i] < 1) ==>
      var res := DownloadSpec(tic, located, binfac, testMode, fetch);
      res.Err? && res.error.UnknownSector? && res.error.sector < 1
    ensures (forall i :: 0 <= i < |located| ==> located[i] >= 1) ==>
      && AllCoded(SectorCodes, KeptSectors(located))
      && DownloadSpec(tic, located, binfac, testMode, fetch) ==
           FromLinks(LinksFor(SectorCodes, tic, KeptSectors(located)), fetch, binfac, testMode)
  {
    var kept := KeptSectors(located);
    KeptSectorsExactly(located);
    LastSectorIs26();
    if i :| 0 <= i < |located| && located[i] < 1 {
      var k :| 0 <= k < |kept| && TrueIndices(ObservedMask(located))[k] == i;
      CodedExactly(kept[k]);
      var first := FirstUncoded(SectorCodes, kept);
      CodedExactly(kept[first]);
    }
    if forall i :: 0 <= i < |located| ==> located[i] >= 1 {
      forall k | 0 <= k < |kept| ensures kept[k] in SectorCodes {
        CodedExactly(kept[k]);
      }
    }
  }
}
