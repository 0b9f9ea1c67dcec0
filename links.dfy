/** Construction of the per-sector download links. */
module Links {
  import opened Errors
  import opened Strings
  import opened SectorTable

  const UrlPrefix: string := "https://mast.stsci.edu/api/v0.1/Download/file/?uri=mast:TESS/product/tess"
  const UrlSuffix: string := "-s_lc.fits"

  /** The pieces of the light-curve file URL of one sector of one target, in
      order: timestamp padded to 13, sector to 4 and TIC id to 16 characters,
      version verbatim. */
  function UrlFields(tic: nat, sector: int, codes: Codes): seq<string>
  {
    [UrlPrefix, Pad0(codes.timestamp, 13), "-s", Pad0(IntString(sector), 4), "-",
     Pad0(DecimalString(tic), 16), "-", codes.version, UrlSuffix]
  }

  /** String concatenation of the pieces, left to right. */
  function Join(parts: seq<string>): string
  {
    if parts == [] then [] else parts[0] + Join(parts[1..])
  }

  function DownloadUrl(tic: nat, sector: int, codes: Codes): string
  {
    Join(UrlFields(tic, sector, codes))
  }

  predicate AllCoded(table: map<int, Codes>, sectors: seq<int>) {
    forall i :: 0 <= i < |sectors| ==> sectors[i] in table
  }

  /** Position of the first sector the table has no codes for. */
  function FirstUncoded(table: map<int, Codes>, sectors: seq<int>): (k: nat)
    requires !AllCoded(table, sectors)
    ensures k < |sectors| && sectors[k] !in table
    ensures forall j :: 0 <= j < k ==> sectors[j] in table
  {
    if sectors[0] !in table then 0
    else
      assert !AllCoded(table, sectors[1..]) by {
        var i :| 0 <= i < |sectors| && sectors[i] !in table;
        assert sectors[1..][i - 1] == sectors[i];
      }
      1 + FirstUncoded(table, sectors[1..])
  }

  /** One link per sector, in the sectors' order. */
  function LinksFor(table: map<int, Codes>, tic: nat, sectors: seq<int>): (links: seq<string>)
    requires AllCoded(table, sectors)
    ensures |links| == |sectors|
  {
    if sectors == [] then []
    else
      var init := sectors[..|sectors| - 1];
      var last := sectors[|sectors| - 1];
      assert forall j :: 0 <= j < |init| ==> init[j] == sectors[j];
      LinksFor(table, tic, init) + [DownloadUrl(tic, last, table[last])]
  }

  /** The last link is the URL of the last sector, after the links of the
      others. */
  lemma LinksForLast(table: map<int, Codes>, tic: nat, sectors: seq<int>)
    requires AllCoded(table, sectors) && |sectors| > 0
    ensures AllCoded(table, sectors[..|sectors| - 1])
    ensures var last := sectors[|sectors| - 1];
      LinksFor(table, tic, sectors) == LinksFor(table, tic, sectors[..|sectors| - 1]) + [DownloadUrl(tic, last, table[last])]
  {
    var init := sectors[..|sectors| - 1];
    assert forall j :: 0 <= j < |init| ==> init[j] == sectors[j];
  }

  /** Link `i` is the URL of sector `i`. */
  lemma {:induction false} LinksForAt(table: map<int, Codes>, tic: nat, sectors: seq<int>, i: nat)
    requires AllCoded(table, sectors) && i < |sectors|
    ensures LinksFor(table, tic, sectors)[i] == DownloadUrl(tic, sectors[i], table[sectors[i]])
  {
    var init := sectors[..|sectors| - 1];
    LinksForLast(table, tic, sectors);
    var front := LinksFor(table, tic, init);
    if i < |init| {
      assert init[i] == sectors[i];
      LinksForAt(table, tic, init, i);
      assert LinksFor(table, tic, sectors)[i] == front[i];
    } else {
      var last := sectors[|sectors| - 1];
      assert i == |front| && sectors[i] == last;
      assert LinksFor(table, tic, sectors)[i] == (front + [DownloadUrl(tic, last, table[last])])[|front|];
    }
  }

  /** A loop that reaches an uncoded sector with every earlier one coded
      has found the first uncoded sector. */
  lemma UncodedAt(table: map<int, Codes>, sectors: seq<int>, i: nat)
    requires i < |sectors| && AllCoded(table, sectors[..i]) && sectors[i] !in table
    ensures !AllCoded(table, sectors) && FirstUncoded(table, sectors) == i
  {
    assert forall j :: 0 <= j < i ==> sectors[..i][j] == sectors[j];
  }

  lemma LinksForSnoc(table: map<int, Codes>, tic: nat, sectors: seq<int>, i: nat)
    requires i < |sectors| && AllCoded(table, sectors[..i]) && sectors[i] in table
    ensures AllCoded(table, sectors[..i + 1])
    ensures LinksFor(table, tic, sectors[..i + 1]) ==
      LinksFor(table, tic, sectors[..i]) + [DownloadUrl(tic, sectors[i], table[sectors[i]])]
  {
    var prefix := sectors[..i + 1];
    assert prefix[..i] == sectors[..i];
    assert AllCoded(table, prefix) by {
      forall j | 0 <= j < i + 1 ensures prefix[j] in table {
        if j < i {
          assert prefix[j] == sectors[..i][j];
        }
      }
    }
  }

  /** The `for sector in sectors` loop that fills `dwload_link`. It stops
      with the KeyError of the first sector that has no codes. */
  method BuildLinks(table: map<int, Codes>, tic: nat, sectors: seq<int>) returns (r: Result<seq<string>>)
    ensures r.Ok? <==> AllCoded(table, sectors)
    ensures r.Ok? ==> r.value == LinksFor(table, tic, sectors)
    ensures r.Err? ==> r.error == UnknownSector(sectors[FirstUncoded(table, sectors)])
  {
    var links: seq<string> := [];
    for i := 0 to |sectors|
      invariant AllCoded(table, sectors[..i]) && links == LinksFor(table, tic, sectors[..i])
    {
      var sector := sectors[i];
      if sector !in table {
        UncodedAt(table, sectors, i);
        return Err(UnknownSector(sector));
      }
      LinksForSnoc(table, tic, sectors, i);
      links := links + [DownloadUrl(tic, sector, table[sector])];
    }
    assert sectors[..|sectors|] == sectors;
    return Ok(links);
  }

  lemma {:induction false} JoinAppend(a: seq<string>, b: seq<string>)
    ensures Join(a + b) == Join(a) + Join(b)
  {
    if a == [] {
      assert a + b == b;
    } else {
      assert (a + b)[1..] == a[1..] + b;
      JoinAppend(a[1..], b);
    }
  }

  /** Piece `i` sits right after the concatenation of the pieces before it. */
  lemma JoinField(parts: seq<string>, i: nat)
    requires i < |parts|
    ensures var off := |Join(parts[..i])|;
      && |Join(parts[..i + 1])| == off + |parts[i]| <= |Join(parts)|
      && Join(parts)[off..off + |parts[i]|] == parts[i]
      && Join(parts)[..off] == Join(parts[..i])
  {
    var head, rest := parts[..i], [parts[i]] + parts[i + 1..];
    assert parts == head + rest;
    JoinAppend(head, rest);
    assert rest[1..] == parts[i + 1..];
    assert parts[..i + 1] == head + [parts[i]];
    JoinAppend(head, [parts[i]]);
    assert [parts[i]][1..] == [];
    var whole, m, tail := Join(parts), parts[i], Join(parts[i + 1..]);
    assert whole == Join(head) + (m + tail);
    assert whole[|Join(head)|..|Join(head)| + |m|] == m;
  }

  /** Where the nine pieces of a URL land once concatenated. */
  lemma UrlShape(f: seq<string>)
    requires |f| == 9 && |f[1]| == 13 && |f[2]| == 2 && |f[3]| == 4 && |f[4]| == 1 && |f[5]| == 16 && |f[6]| == 1
    ensures var u := Join(f); var p := |f[0]|; var v := |f[7]|;
      && |u| == p + 37 + v + |f[8]|
      && u[..p] == f[0] && u[p..p + 13] == f[1] && u[p + 13..p + 15] == f[2]
      && u[p + 15..p + 19] == f[3] && u[p + 19..p + 20] == f[4] && u[p + 20..p + 36] == f[5]
      && u[p + 36..p + 37] == f[6] && u[p + 37..p + 37 + v] == f[7] && u[p + 37 + v..] == f[8]
  {
    assert f[..0] == [];
    JoinField(f, 0);
    JoinField(f, 1);
    JoinField(f, 2);
    JoinField(f, 3);
    JoinField(f, 4);
    JoinField(f, 5);
    JoinField(f, 6);
    JoinField(f, 7);
    JoinField(f, 8);
    assert f[..9] == f;
  }

  /** The fields of a download URL sit at fixed offsets and read back as the
      timestamp, the sector number, the TIC id and the version. */
  lemma UrlLayout(tic: nat, sector: nat, codes: Codes)
    requires AllDigits(codes.timestamp) && |codes.timestamp| <= 13
    requires sector < Pow10(4) && tic < Pow10(16)
    ensures var url := DownloadUrl(tic, sector, codes); var p := |UrlPrefix|; var v := |codes.version|;
      && |url| == p + 37 + v + |UrlSuffix|
      && url[..p] == UrlPrefix
      && url[p..p + 13] == Pad0(codes.timestamp, 13)
      && AllDigits(url[p..p + 13]) && Value(url[p..p + 13]) == Value(codes.timestamp)
      && url[p + 13..p + 15] == "-s"
      && AllDigits(url[p + 15..p + 19]) && Value(url[p + 15..p + 19]) == sector
      && url[p + 19] == '-'
      && AllDigits(url[p + 20..p + 36]) && Value(url[p + 20..p + 36]) == tic
      && url[p + 36] == '-'
      && url[p + 37..p + 37 + v] == codes.version
      && url[p + 37 + v..] == UrlSuffix
  {
    var f := UrlFields(tic, sector, codes);
    FieldValues(tic, sector, codes);
    UrlShape(f);
    var url, p := Join(f), |UrlPrefix|;
    assert url[p + 19] == url[p + 19..p + 20][0];
    assert url[p + 36] == url[p + 36..p + 37][0];
  }

  /** The padded fields have their widths and read back as the values they
      encode. */
  lemma FieldValues(tic: nat, sector: nat, codes: Codes)
    requires AllDigits(codes.timestamp) && |codes.timestamp| <= 13
    requires sector < Pow10(4) && tic < Pow10(16)
    ensures var f := UrlFields(tic, sector, codes);
      && |f| == 9 && f[0] == UrlPrefix && f[2] == "-s" && f[4] == "-" && f[6] == "-"
      && f[7] == codes.version && f[8] == UrlSuffix
      && |f[1]| == 13 && f[1] == Pad0(codes.timestamp, 13)
      && AllDigits(f[1]) && Value(f[1]) == Value(codes.timestamp)
      && |f[3]| == 4 && AllDigits(f[3]) && Value(f[3]) == sector
      && |f[5]| == 16 && AllDigits(f[5]) && Value(f[5]) == tic
  {
    TimestampField(codes.timestamp);
    NumberField(sector, 4);
    NumberField(tic, 16);
  }

  lemma TimestampField(ts: string)
    requires AllDigits(ts) && |ts| <= 13
    ensures |Pad0(ts, 13)| == 13 && AllDigits(Pad0(ts, 13)) && Value(Pad0(ts, 13)) == Value(ts)
  {
    Pad0Facts(ts, 13);
    if |ts| < 13 {
      LeadingZerosIgnored(13 - |ts|, ts);
    }
  }

  lemma NumberField(n: nat, width: nat)
    requires width >= 1 && n < Pow10(width)
    ensures var f := Pad0(DecimalString(n), width); |f| == width && AllDigits(f) && Value(f) == n
  {
    DecimalLength(n, width);
    PaddedValue(n, width);
    Pad0Facts(DecimalString(n), width);
  }

  /** For every sector of the table the timestamp field is the table's
      timestamp itself, and the sector and TIC fields read back. */
  lemma TableUrlLayout(tic: nat, sector: int)
    requires sector in SectorCodes && tic < Pow10(16)
    ensures var codes := SectorCodes[sector]; var url := DownloadUrl(tic, sector, codes); var p := |UrlPrefix|;
      && |url| == p + 37 + |codes.version| + |UrlSuffix|
      && url[p..p + 13] == codes.timestamp
      && AllDigits(url[p + 15..p + 19]) && Value(url[p + 15..p + 19]) == sector
      && AllDigits(url[p + 20..p + 36]) && Value(url[p + 20..p + 36]) == tic
  {
    var codes := SectorCodes[sector];
    CodedExactly(sector);
    TimestampsFullWidth(sector);
    assert AllDigits(codes.timestamp) && |codes.timestamp| == 13;
    assert Pow10(4) == 10000;
    UrlLayout(tic, sector, codes);
    Pad0Facts(codes.timestamp, 13);
  }
}
