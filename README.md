# Light-curve acquisition of DeliLATTE, modelled in Dafny

This project models `download_data`, the function the DeliLATTE tool of
delicatessen runs when a TESS target is picked in the catalogue plot. It
covers everything the function does once the target's sectors have been
located:

- **Sector table.** `sector_codes` maps each sector to its acquisition
  timestamp and pipeline version. `last_sector` is the largest sector in
  that table. Located sectors beyond it are dropped and the rest keep
  their order (module `SectorTable`).
- **Download links.** Each link is the MAST URL, built from the timestamp
  zero-padded to 13 characters, the sector padded to 4, the TIC id padded
  to 16 and the version as it stands. A sector missing from the table
  stops the run with the lookup error (modules `Strings` and `Links`).
- **The per-file loop.**
  - A file that cannot be downloaded is skipped. In test mode the file is
    opened without a guard, so a failure ends the run.
  - Flux and flux error are divided by the flux median. The four centroid
    columns have their medians subtracted.
  - The quality flag gives three masks: `quality > 0`, `quality <= 0`,
    and bit 5 set (momentum dumps).
  - Time and normalised flux are truncated to a whole number of bins and
    averaged bin by bin through the inner `rebin`.
  - Fifteen lists grow by one entry per sector. The star's magnitude,
    temperature and radius are taken from each file's header, so the last
    file's values win. (Modules `Binning`, `Masks`, `Extract`,
    `Pipeline`.)
- **Stitching.** Each array list is `hstack`ed in fetch order. Stacking
  an empty list fails, so a run with no usable file is an error
  (`Pipeline`).

`Pipeline.DownloadData` is the imperative model: a loop that builds the
links, then a loop with the fifteen accumulators. Each is proved equal to
a functional specification, `Pipeline.DownloadSpec` and
`Pipeline.FromLinks`. The lemmas state what those specifications promise:
skipping, test-mode failure, the stacked contents and lengths, alignment,
and last-wins header values.

The outside world enters as inputs:

- the located sectors are a sequence of integers;
- downloading and opening a link is a function `fetch` from URL to
  `Failed | Fetched(record)`;
- a record carries the FITS columns, the header values and the nan-aware
  medians as given numbers.

Flux values are `real`, so division and averaging are exact.

Errors follow what Python raises:

- a missing sector key gives `UnknownSector`;
- an unguarded open in test mode gives `FetchFailed`;
- `N / binfac` with `binfac == 0`, or `rebin` with zero bins, gives
  `ZeroDivision`;
- a reshape whose sizes do not fit gives `ShapeMismatch`;
- stacking an empty list gives `NoData`.

With a negative bin factor and an empty sector, `rebin` divides zero by
zero. For a non-empty sector, `n = floor(N/binfac)*binfac` is then at least
`N`. When `|binfac|` does not divide `N`, `n` exceeds `N`, and filling the
`X` buffer with `time[:n]` fails to broadcast before `rebin` is reached.
When it divides, `rebin` is reached and its reshape into negative sizes is
refused. Both failures are Python `ValueError`s; the model calls them
`ShapeMismatch`.

The comments in the source call `quality > 0` "good quality data". The
model follows the code: the centroid series are filtered by the
`quality <= 0` mask `l2`.

## Model

| member | source | states |
|---|---|---|
| Binning.Truncated | delicatessen/tools/delilatte.py:284 | `n` is the largest multiple of the bin factor not above `N`: `n <= N < n + binfac`, `n % binfac == 0`, `n / binfac == N / binfac` |
| Binning.Rebin | delicatessen/tools/delilatte.py:148-151 | `rebin` fails with a division by zero for zero groups and with a shape error unless the groups divide the row length; otherwise it gives exactly `groups` values |
| Binning.GroupMeansAt | delicatessen/tools/delilatte.py:151 | in the reshape-and-mean, group `i` is the mean of samples `[i*width, (i+1)*width)` |
| Binning.RebinAt | delicatessen/tools/delilatte.py:148-151 | a reshape that fits succeeds, and column `i` is the mean of the `i`-th run of `len / groups` consecutive samples |
| Binning.RebinTruncated | delicatessen/tools/delilatte.py:283-288 | binning the truncated row never hits the shape error: it succeeds exactly when the sector holds one full bin, fails then by division by zero, and yields `N / binfac` bins |
| Binning.RebinTruncatedAt | delicatessen/tools/delilatte.py:283-291 | bin `i` is the mean of raw samples `[i*binfac, (i+1)*binfac)` of the untruncated row |
| Extrema.MaxKey | delicatessen/tools/delilatte.py:181 | `sorted(keys)[-1]` is a key and no key exceeds it |
| SectorTable.LastSector | delicatessen/tools/delilatte.py:181 | `last_sector` is a sector of the table and no sector of the table exceeds it |
| SectorTable.CodedExactly | delicatessen/tools/delilatte.py:154-179 | the table has codes for exactly the sectors 1 to 26 |
| SectorTable.StringKeysAgree | delicatessen/tools/delilatte.py:154-195 | `str(sector)` is one of the string keys `'1'` to `'26'` exactly when the sector is a key of the integer-keyed table, so keying the table by integers changes no lookup |
| SectorTable.LastSectorIs26 | delicatessen/tools/delilatte.py:154-181 | `last_sector` is 26 |
| SectorTable.TimestampsFullWidth | delicatessen/tools/delilatte.py:154-179 | every timestamp of the table is 13 decimal digits, so padding it to 13 changes nothing |
| SectorTable.KeptSectorsExactly | delicatessen/tools/delilatte.py:185 | the kept sectors are exactly the located sectors at most `last_sector`, each at the position it had, in their original order |
| SectorTable.KeptPositiveAreCoded | delicatessen/tools/delilatte.py:185-195 | every positive kept sector has an entry in the table, so its lookup cannot fail |
| Strings.DecimalString | delicatessen/tools/delilatte.py:197 | `str(tic)` is a non-empty digit string without a leading zero unless the number is 0 |
| Strings.IntStringInjective | delicatessen/tools/delilatte.py:192 | `str` on ints is injective: two ints with the same rendering are equal |
| Strings.KeyMatches | delicatessen/tools/delilatte.py:192-195 | `str(s)` equals the rendering `str(k)` of a natural `k` exactly when `s == k` |
| Strings.Pad0Facts | delicatessen/tools/delilatte.py:195-197 | `rjust(width, '0')` never truncates: the length is `max(width, len)`, the original string is a suffix, and everything in front of it is `'0'` |
| Strings.ValueOfDecimal | delicatessen/tools/delilatte.py:197 | the decimal rendering reads back as the number |
| Strings.DecimalLength | delicatessen/tools/delilatte.py:196-197 | a number below `10^k` renders in at most `k` digits |
| Strings.LeadingZerosIgnored | delicatessen/tools/delilatte.py:195-197 | zeros put in front of a digit string do not change the number it spells |
| Strings.PaddedValue | delicatessen/tools/delilatte.py:196-197 | a zero-padded decimal field still reads back as the original number |
| Links.FirstUncoded | delicatessen/tools/delilatte.py:190-195 | the position of the first sector the table has no codes for: that sector is missing and all earlier ones are present |
| Links.BuildLinks | delicatessen/tools/delilatte.py:187-200 | the link loop succeeds exactly when every kept sector has codes, and then gives one link per sector, in sector order; otherwise it fails with the lookup error of the first missing sector |
| Links.LinksForAt | delicatessen/tools/delilatte.py:190-200 | link `i` is the URL of sector `i` |
| Links.JoinAppend | delicatessen/tools/delilatte.py:194-198 | concatenating the URL pieces respects splitting the list of pieces |
| Links.UrlShape | delicatessen/tools/delilatte.py:194-198 | where each of the nine URL pieces lands in the concatenation, given the widths of the padded fields |
| Links.UrlLayout | delicatessen/tools/delilatte.py:194-198 | the URL is the prefix, the timestamp padded to 13, `-s`, the sector padded to 4, `-`, the TIC id padded to 16, `-`, the version and `-s_lc.fits`, at fixed offsets; the padded fields read back as the timestamp, sector and TIC id |
| Links.TableUrlLayout | delicatessen/tools/delilatte.py:194-198 | for every sector of the table the timestamp field is the table's timestamp itself, and the sector and TIC fields read back as the sector and the TIC id |
| Masks.Select | delicatessen/tools/delilatte.py:300 | boolean-mask indexing `xs[mask]` keeps one element per true mask entry |
| Masks.TrueIndices | delicatessen/tools/delilatte.py:305-309 | the positions of the true entries of a mask: one per true entry, each in range and true |
| Masks.TrueIndicesExactly | delicatessen/tools/delilatte.py:305-309 | those positions are strictly increasing and include every true position |
| Masks.SelectAt | delicatessen/tools/delilatte.py:305-309 | element `k` of `xs[mask]` is the element at the `k`-th true position of the mask |
| Masks.CountPartition | delicatessen/tools/delilatte.py:266-267 | a mask and its negation together count every position once |
| Extract.AndThirtyTwo | delicatessen/tools/delilatte.py:294 | the bitwise and of a flag pattern with `2**5` is 32 when bit 5 is set and 0 otherwise |
| Extract.DumpFlagIsBit5 | delicatessen/tools/delilatte.py:294 | for a 32-bit signed flag, negative ones included, `bitwise_and(q, 32) >= 1` on its two's-complement pattern holds exactly when the model's bit-5 test does |
| Extract.DumpMaskIsBitwiseAnd | delicatessen/tools/delilatte.py:294 | the dump mask of a column of 32-bit flags is `np.bitwise_and(quality, 2**5) >= 1`, element by element |
| Extract.ExtractSector | delicatessen/tools/delilatte.py:283-291 | processing an opened file succeeds exactly when the bin factor is positive and the sector holds at least one full bin; it fails with a division by zero for a zero bin factor or a short sector, and for a negative factor with a division by zero on an empty sector and a shape error otherwise |
| Extract.SectorShape | delicatessen/tools/delilatte.py:244-314 | with a positive bin factor and at least one full bin, an opened sector contributes its time and background unchanged, the flux and its error divided by the median, the times at the dump flags and at the `quality <= 0` samples, the four recentred centroid columns at those samples, `N / binfac` bins, its first and last time, and its header values |
| Extract.QualityPartition | delicatessen/tools/delilatte.py:266-267 | every sample is in exactly one of `l` and `l2`, so their counts add up to the sample count |
| Extract.DumpTimes | delicatessen/tools/delilatte.py:294-300 | the dump times are exactly the times of the samples whose quality has bit 5 set, in sample order |
| Extract.CentroidsAligned | delicatessen/tools/delilatte.py:258-309 | the four recentred centroid series and their times are taken at the same `quality <= 0` samples, in sample order, one entry per such sample, and stay index-aligned |
| Extract.NormalisationInverts | delicatessen/tools/delilatte.py:254-256 | multiplying the normalised flux back by the median gives the raw flux |
| Extract.BinnedMeans | delicatessen/tools/delilatte.py:283-291 | binned time and binned flux `i` are the means of raw time and of normalised flux over samples `[i*binfac, (i+1)*binfac)` |
| Pipeline.DownloadData | delicatessen/tools/delilatte.py:185-329 | the method that builds the links and runs the loop gives exactly the specified outcome for every located sector list and every fetch behaviour |
| Pipeline.CollectSectors | delicatessen/tools/delilatte.py:205-329 | the loop with its fifteen accumulators and the stacking after it give exactly the loop specification's result: skipped failures, the first error, no data, or the stacked lists with the last header values |
| Pipeline.StitchPush | delicatessen/tools/delilatte.py:297-314 | one iteration's appends extend each accumulator list by that sector's entry |
| Pipeline.ProcessStep | delicatessen/tools/delilatte.py:225-314 | one iteration of the loop: a failed fetch is skipped or fatal by mode, a failing extraction stops the loop, a success is appended |
| Pipeline.ErrorPersists | delicatessen/tools/delilatte.py:225-314 | once an error has stopped the loop, later links do not change the outcome |
| Pipeline.Successes | delicatessen/tools/delilatte.py:234-241 | the fetched records, in link order, are at most as many as the links |
| Pipeline.ExtractAllOk | delicatessen/tools/delilatte.py:244-314 | extracting a list of records succeeds exactly when each record's extraction does |
| Pipeline.ExtractAllValues | delicatessen/tools/delilatte.py:244-314 | a successful extraction of a list gives one result per record, each the record's own extraction |
| Pipeline.SkipsFailures | delicatessen/tools/delilatte.py:234-241 | outside test mode the loop is the extraction of the fetched records only: a failed fetch contributes nothing |
| Pipeline.TestModeNeedsEveryFile | delicatessen/tools/delilatte.py:229-230 | in test mode a run that succeeds has fetched every link |
| Pipeline.TestModeFirstFailure | delicatessen/tools/delilatte.py:229-230 | in test mode the first failed fetch, reached without an earlier error, is the run's error |
| Pipeline.ModesAgreeWithoutFailures | delicatessen/tools/delilatte.py:229-241 | when every link can be fetched, test mode and normal mode give the same outcome |
| Pipeline.StitchAllLengths | delicatessen/tools/delilatte.py:297-314 | every accumulator list has one entry per processed sector |
| Pipeline.StitchAllAt | delicatessen/tools/delilatte.py:297-314 | entry `k` of every accumulator list is sector `k`'s contribution |
| Pipeline.FlattenAppend | delicatessen/tools/delilatte.py:316-327 | stacking two lists of arrays one after the other is stacking their concatenation |
| Pipeline.FlattenSameShape | delicatessen/tools/delilatte.py:316-327 | lists of arrays of pairwise equal lengths stack to arrays of equal length |
| Pipeline.FlattenLength | delicatessen/tools/delilatte.py:316-327 | a stacked array is as long as its pieces together |
| Pipeline.FinishAligned | delicatessen/tools/delilatte.py:316-329 | after stacking, time, flux, flux error and background have equal lengths, the two binned arrays match, the four centroid arrays match their times, and there is one sector number, start and end per sector |
| Pipeline.SkippingOutcome | delicatessen/tools/delilatte.py:234-316 | outside test mode the run succeeds exactly when some file was fetched, the bin factor is positive and no fetched sector is shorter than one bin; with no fetched file it fails for lack of data |
| Pipeline.ExtractedDescribes | delicatessen/tools/delilatte.py:244-314 | with a positive bin factor and no record shorter than one bin, extracting the records succeeds, and each result passes its record's time, background, sector, first and last time and header values on unchanged, with aligned arrays |
| Pipeline.ExtractedSignals | delicatessen/tools/delilatte.py:254-300 | with a positive bin factor and no record shorter than one bin, each result holds its record's normalised flux and error, its dump times and its `quality <= 0` times |
| Pipeline.ExtractedCentroids | delicatessen/tools/delilatte.py:258-309 | under the same conditions, each result holds its record's four centroid columns, recentred and taken at the `quality <= 0` samples |
| Pipeline.StackedRecords | delicatessen/tools/delilatte.py:280-314 | the accumulated times and backgrounds are the records' columns in order, and the sector, start and end lists have one entry per record, taken from that record |
| Pipeline.StackedSignals | delicatessen/tools/delilatte.py:297-309 | the accumulated flux, flux error, dump-time and `quality <= 0` time lists are those of the records, in order |
| Pipeline.StackedCentroids | delicatessen/tools/delilatte.py:305-308 | the four accumulated centroid lists are the records' recentred centroid columns at their `quality <= 0` samples, in order |
| Pipeline.SkippingResult | delicatessen/tools/delilatte.py:225-329 | outside test mode, when some file was fetched, the bin factor is positive and every fetched sector holds a full bin, the run succeeds: it stacks the fetched files' times and backgrounds in link order, one sector number and first and last time per fetched file, keeps related arrays aligned, and returns the last fetched file's magnitude, temperature and radius |
| Pipeline.SkippingSignals | delicatessen/tools/delilatte.py:234-327 | outside test mode, under the same success conditions, the stacked flux and flux error are the fetched files' normalised columns one after another, and the stacked dump and `quality <= 0` times are theirs one after another |
| Pipeline.SkippingCentroids | delicatessen/tools/delilatte.py:234-327 | outside test mode, under the same success conditions, the four stacked centroid arrays are the fetched files' recentred columns at their `quality <= 0` samples, one file after another |
| Pipeline.StitchedLength | delicatessen/tools/delilatte.py:297-318 | outside test mode, under the same conditions, the run succeeds and the stacked time, flux and flux error each have as many samples as the fetched files have together |
| Pipeline.SectorSelection | delicatessen/tools/delilatte.py:185-195 | a located sector below 1 stops the run with the lookup error of a non-positive sector; when all are positive, every link is built and the run is the loop over them |

## Left out

- `mastQuery` and its proxy branch are HTTPS I/O and are not part of this model.
- The catalogue query for the target's coordinates, the JSON parsing of its answer, and `tess_stars2px_function_entry` are foreign calls. Their result, the located sectors, is an input sequence.
- `requests.get`, `pf.open`, `close` and the FITS column and header access are network and file I/O. Each link's outcome is an input function from URL to a failed fetch or a record of typed columns. The `SECTOR` header entry is taken as an integer.
- `np.nanmedian`, NaN and IEEE floating point are not modelled. The medians of the flux and of the four centroid columns are given real numbers in the record. Division and means are exact over the reals.
- A zero flux median is excluded by the record type. The source would divide by zero there and produce infinities rather than an error.
- The model expects one entry per row in every column of a record, as a FITS binary table provides.
- A file that downloads and opens but lacks one of the columns or header keywords read after the `try` is not modelled. In the source that `KeyError` stops the whole run even outside test mode; the model's `fetch` gives either a failed download or a complete record.
- The TIC id is taken as a natural number whose `str` is its decimal rendering. The docstring types it as a string; a string that is not the decimal of an integer is not modelled.
- Pipeline.SkippingResult: the stacked binned time and flux are stated by their lengths only. Their per-sector contents, the means of whole bins, are stated by Extract.BinnedMeans.
- Extract.DumpMaskIsBitwiseAnd: `np.bitwise_and` is modelled by a bit-by-bit definition on non-negative numbers, applied to the 32-bit two's-complement pattern of each flag. The `QUALITY` column is taken to be 32-bit.
- Extract.ExtractSector: the truncation `n = int(np.floor(N/binfac)*binfac)` is exact integer arithmetic. A float rounding of `N/binfac` for very large `N` is not modelled. A non-integer bin factor is not modelled either: the factor is an integer.
- The `SAP_FLUX` column is read twice, into `f0` and `flux`, and never used. The model leaves it out.
- The centroid arrays are recentred in place with `-=`, and the `X` buffer is filled by slice assignment. The model treats both as values; the FITS data that `-=` modifies is not visible after the file is closed.
- The string keys of `sector_codes` are modelled as the integers they spell. The table is stored as a sequence indexed by sector minus one.
- The `DeliLATTE` widget class, the Bokeh application code, the page scripts and the packaging files contain no logic of `download_data` and are not part of this model.
