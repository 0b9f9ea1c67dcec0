/** Fixed-factor binning: truncation to a multiple of the bin factor and the
    reshape-and-mean of the inner `rebin`. */
module Binning {
  import opened Errors

  function Sum(xs: seq<real>): real
  {
    if xs == [] then 0.0 else xs[0] + Sum(xs[1..])
  }

  /** Arithmetic mean `mean()` of a non-empty group, computed exactly. */
  function Mean(xs: seq<real>): real
    requires |xs| > 0
  {
    Sum(xs) / (|xs| as real)
  }

  lemma MulAtLeast(a: int, b: int)
    requires a >= 1 && b > 0
    ensures a * b >= b
  {
    assert a * b == (a - 1) * b + b;
  }

  lemma NoSmallerMultiple(a: nat, b: nat)
    requires b > 0
    ensures a <= a * b
  {
    if a >= 1 {
      MulAtLeast(b, a);
    }
  }

  lemma MultipleDiv(q: nat, b: nat)
    requires b > 0
    ensures (q * b) % b == 0 && (q * b) / b == q
  {
    var x := q * b;
    var d, r := x / b, x % b;
    assert x == d * b + r && 0 <= r < b;
    var e := q - d;
    assert e * b == r;
    if e >= 1 {
      MulAtLeast(e, b);
    }
  }

  lemma ExactDiv(len: nat, g: nat)
    requires g > 0 && len % g == 0
    ensures len == g * (len / g)
  {
  }

  /** `n = int(np.floor(N/binfac)*binfac)`: the largest multiple of the bin
      factor that does not exceed the sample count. */
  function Truncated(count: nat, binfac: nat): (n: nat)
    requires binfac > 0
    ensures n <= count < n + binfac
    ensures n % binfac == 0 && n / binfac == count / binfac && n / binfac <= n
  {
    MultipleDiv(count / binfac, binfac);
    NoSmallerMultiple(count / binfac, binfac);
    (count / binfac) * binfac
  }

  /** Means of `groups` consecutive groups of `width` samples: the reshape
      into rows of `width` followed by `mean(-1)`. */
  function GroupMeans(row: seq<real>, width: nat, groups: nat): (r: seq<real>)
    requires width > 0 && |row| == groups * width
    ensures |r| == groups
    decreases groups
  {
    if groups == 0 then []
    else
      MulAtLeast(groups, width);
      [Mean(row[..width])] + GroupMeans(row[width..], width, groups - 1)
  }

  /** Group `i` is the mean of samples `[i*width, (i+1)*width)`. */
  lemma {:induction false} GroupMeansAt(row: seq<real>, width: nat, groups: nat, i: nat)
    requires width > 0 && |row| == groups * width && i < groups
    ensures (i + 1) * width <= |row|
    ensures GroupMeans(row, width, groups)[i] == Mean(row[i * width..(i + 1) * width])
    decreases groups
  {
    MulAtLeast(groups, width);
    assert groups * width == (groups - 1) * width + width;
    if i == 0 {
      assert (i + 1) * width == width && i * width == 0;
    } else {
      assert (i - 1) * width + width == i * width && i * width + width == (i + 1) * width;
      GroupMeansAt(row[width..], width, groups - 1, i - 1);
      assert row[width..][(i - 1) * width..i * width] == row[i * width..(i + 1) * width];
    }
  }

  /** The inner `rebin` on one row of `X`, reshaped to `groups` columns and
      averaged: the integer division by `groups` fails on zero, the reshape
      fails unless `groups` divides the row length, and otherwise column `i`
      is the mean of the `i`-th run of `|row| / groups` samples. */
  function Rebin(row: seq<real>, groups: nat): (r: Result<seq<real>>)
    requires groups <= |row|
    ensures r.Ok? <==> groups > 0 && |row| % groups == 0
    ensures groups == 0 ==> r == Err(ZeroDivision)
    ensures groups > 0 && |row| % groups != 0 ==> r == Err(ShapeMismatch)
    ensures r.Ok? ==> |r.value| == groups
  {
    if groups == 0 then Err(ZeroDivision)
    else if |row| % groups != 0 then Err(ShapeMismatch)
    else
      var w := |row| / groups;
      ExactDiv(|row|, groups);
      Ok(GroupMeans(row, w, groups))
  }

  /** Column `i` of a successful `rebin` is the mean of the `i`-th run of
      `|row| / groups` consecutive samples. */
  lemma RebinAt(row: seq<real>, groups: nat, i: nat)
    requires 0 < groups <= |row| && |row| % groups == 0 && i < groups
    ensures Rebin(row, groups).Ok? && |Rebin(row, groups).value| == groups
    ensures var w := |row| / groups;
      (i + 1) * w <= |row| && Rebin(row, groups).value[i] == Mean(row[i * w..(i + 1) * w])
  {
    ExactDiv(|row|, groups);
    GroupMeansAt(row, |row| / groups, groups, i);
  }

  /** Binning a truncated row never hits the reshape error: it fails, by
      dividing by zero, exactly when there is not one full bin, and
      otherwise yields `N / binfac` bins. */
  lemma {:induction false} RebinTruncated(row: seq<real>, binfac: nat)
    requires binfac > 0
    ensures var n := Truncated(|row|, binfac); var r := Rebin(row[..n], n / binfac);
      && (r.Ok? <==> |row| >= binfac)
      && (r.Err? ==> r.error == ZeroDivision)
      && (r.Ok? ==> |r.value| == |row| / binfac)
  {
    var n := Truncated(|row|, binfac);
    var groups := n / binfac;
    ExactDiv(n, binfac);
    if groups > 0 {
      MulAtLeast(groups, binfac);
      MultipleDiv(binfac, groups);
      RebinAt(row[..n], groups, 0);
    }
  }

  /** Bin `i` of a truncated row is the mean of samples
      `[i*binfac, (i+1)*binfac)` of the untruncated row. */
  lemma {:induction false} RebinTruncatedAt(row: seq<real>, binfac: nat, i: nat)
    requires binfac > 0 && i < |row| / binfac
    ensures var n := Truncated(|row|, binfac); var r := Rebin(row[..n], n / binfac);
      && r.Ok? && i < |r.value| && (i + 1) * binfac <= |row|
      && r.value[i] == Mean(row[i * binfac..(i + 1) * binfac])
  {
    var n := Truncated(|row|, binfac);
    var groups := n / binfac;
    var head := row[..n];
    ExactDiv(n, binfac);
    MulAtLeast(groups, binfac);
    MultipleDiv(binfac, groups);
    RebinAt(head, groups, i);
    assert head[i * binfac..(i + 1) * binfac] == row[i * binfac..(i + 1) * binfac];
  }
}
