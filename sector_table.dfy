/** The largest element of a finite set of integers. */
module Extrema {

  lemma EmptyOrHasElement(s: set<int>)
    ensures s == {} || exists x :: x in s
  {
    if forall y :: y !in s {
      assert s == {};
    }
  }

  ghost predicate IsMax(m: int, keys: set<int>) {
    m in keys && forall k :: k in keys ==> k <= m
  }
  lemma {:induction false} HasMax(keys: set<int>)
    requires keys != {}
    ensures exists m :: IsMax(m, keys)
    decreases |keys|
  {
    EmptyOrHasElement(keys);
    var x: int :| x in keys;
    var rest := keys - {x};
    if rest == {} {
      forall k | k in keys ensures k <= x {
        assert k == x || k in rest;
      }
      assert IsMax(x, keys);
    } else {
      HasMax(rest);
      var m: int :| IsMax(m, rest);
      var top := if x > m then x else m;
      forall k | k in keys ensures k <= top {
        assert k == x || k in rest;
      }
      assert IsMax(top, keys);
    }
  }

  /** The largest key: `sorted(keys)[-1]`. */
  function MaxKey(keys: set<int>): (m: int)
    requires keys != {}
    ensures m in keys && forall k :: k in keys ==> k <= m
  {
    HasMax(keys);
    var m :| m in keys && forall k :: k in keys ==> k <= m; m
  }
}

/** The static table of sector codes, the last sector it knows, and the
    filter that keeps only located sectors the table can have observed. */
module SectorTable {
  import opened Masks
  import opened Strings
  import opened Extrema

  /** The two strings the download URL needs for one sector: the acquisition
      timestamp and the pipeline version. */
  datatype Codes = Codes(timestamp: string, version: string)

  /** The timestamp and version of `sector_codes`, in sector order: entry
      `s - 1` belongs to sector `s`. */
  const CodesBySector: seq<Codes> := [
    Codes("2018206045859", "0120"),
    Codes("2018234235059", "0121"),
    Codes("2018263035959", "0123"),
    Codes("2018292075959", "0124"),
    Codes("2018319095959", "0125"),
    Codes("2018349182459", "0126"),
    Codes("2019006130736", "0131"),
    Codes("2019032160000", "0136"),
    Codes("2019058134432", "0139"),
    Codes("2019085135100", "0140"),
    Codes("2019112060037", "0143"),
    Codes("2019140104343", "0144"),
    Codes("2019169103026", "0146"),
    Codes("2019198215352", "0150"),
    Codes("2019226182529", "0151"),
    Codes("2019253231442", "0152"),
    Codes("2019279210107", "0161"),
    Codes("2019306063752", "0162"),
    Codes("2019331140908", "0164"),
    Codes("2019357164649", "0165"),
    Codes("2020020091053", "0167"),
    Codes("2020049080258", "0174"),
    Codes("2020078014623", "0177"),
    Codes("2020106103520", "0180"),
    Codes("2020133194932", "0182"),
    Codes("2020160202036", "0188")
  ]

  /** `sector_codes`. The Python dictionary is keyed by the decimal string
      of the sector; for an int `s`, `str(s)` is one of those keys exactly
      when `s` is the integer it spells, so the keys are kept as integers. */
  const SectorCodes: map<int, Codes> := map s | 1 <= s <= |CodesBySector| :: CodesBySector[s - 1]

  /** `last_sector`: the largest sector the table has codes for. */
  function LastSector(): (last: int)
    ensures last in SectorCodes && forall s :: s in SectorCodes ==> s <= last
  {
    assert 1 in SectorCodes;
    MaxKey(SectorCodes.Keys)
  }

  /** The table has codes for exactly the sectors 1 to 26. */
  lemma CodedExactly(s: int)
    ensures s in SectorCodes <==> 1 <= s <= 26
  {
  }

  /** Looking up `str(s)` among the string keys `'1'` to `'26'` finds a key
      exactly when `s` is a key of the integer-keyed table. */
  lemma StringKeysAgree(s: int)
    ensures (exists k :: 1 <= k <= |CodesBySector| && IntString(s) == DecimalString(k)) <==> s in SectorCodes
  {
    CodedExactly(s);
    if s in SectorCodes {
      KeyMatches(s, s);
    } else {
      forall k | 1 <= k <= |CodesBySector| ensures IntString(s) != DecimalString(k) {
        KeyMatches(s, k);
      }
    }
  }

  lemma LastSectorIs26()
    ensures LastSector() == 26
  {
    assert 26 in SectorCodes;
    CodedExactly(LastSector());
  }

  /** `outSec <= last_sector`, element by element. */
  function ObservedMask(located: seq<int>): (m: seq<bool>)
    ensures |m| == |located|
    ensures forall i :: 0 <= i < |located| ==> m[i] == (located[i] <= LastSector())
  {
    seq(|located|, i requires 0 <= i < |located| => located[i] <= LastSector())
  }

  /** `sectors = outSec[outSec <= last_sector]`. */
  function KeptSectors(located: seq<int>): (kept: seq<int>)
  {
    Select(located, ObservedMask(located))
  }

  /** The kept sectors are exactly the located sectors that are at most the
      last coded sector, in their original order. */
  lemma KeptSectorsExactly(located: seq<int>)
    ensures var kept := KeptSectors(located); var ix := TrueIndices(ObservedMask(located));
      && |kept| == |ix|
      && (forall k :: 0 <= k < |kept| ==> kept[k] == located[ix[k]] && kept[k] <= LastSector())
      && (forall k, l :: 0 <= k < l < |ix| ==> ix[k] < ix[l])
      && (forall i :: 0 <= i < |located| && located[i] <= LastSector() ==> i in ix)
  {
    SelectAt(located, ObservedMask(located));
    TrueIndicesExactly(ObservedMask(located));
  }

  /** Every positive kept sector has an entry in the table, so the lookup
      that builds its download URL cannot fail. */
  lemma KeptPositiveAreCoded(located: seq<int>)
    ensures forall s :: s in KeptSectors(located) && s >= 1 ==> s in SectorCodes
  {
    KeptSectorsExactly(located);
    LastSectorIs26();
    forall s | s in KeptSectors(located) && s >= 1 ensures s in SectorCodes {
      var k :| 0 <= k < |KeptSectors(located)| && KeptSectors(located)[k] == s;
      CodedExactly(s);
    }
  }

  /** A timestamp of the 13 digits the URL pads to. */
  predicate FullWidth(c: Codes) {
    |c.timestamp| == 13 && forall i :: 0 <= i < 13 ==> '0' <= c.timestamp[i] <= '9'
  }

  /** Every timestamp in the table already has the 13 digits the URL pads to. */
  lemma TimestampsFullWidth(s: int)
    requires s in SectorCodes
    ensures |SectorCodes[s].timestamp| == 13
    ensures forall i :: 0 <= i < 13 ==> '0' <= SectorCodes[s].timestamp[i] <= '9'
  {
    if s <= 13 {
      EarlyFullWidth();
    } else {
      LateFullWidth();
    }
    assert FullWidth(CodesBySector[s - 1]);
  }

  lemma EarlyFullWidth()
    ensures forall k :: 0 <= k < 13 ==> FullWidth(CodesBySector[k])
  {
  }

  lemma LateFullWidth()
    ensures forall k :: 13 <= k < |CodesBySector| ==> FullWidth(CodesBySector[k])
  {
  }
}
