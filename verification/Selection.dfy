/** Which pixels and samples the noise loops pick: a linear congruence modulo a prime. */
module Selection {

  import opened Division

  const PIXEL_PERIOD: int := 997
  const SAMPLE_PERIOD: int := 97

  /** The loop's test `(x * 1009 + y * 3049) % 997 == 0`. */
  predicate PixelSelected(x: nat, y: nat) {
    (x * 1009 + y * 3049) % 997 == 0
  }

  /** The loop's test `(s * 1009 + channel * 3049) % 97 == 0`. */
  predicate SampleSelected(s: nat, channel: nat) {
    (s * 1009 + channel * 3049) % 97 == 0
  }

  /** Numbers that differ by a multiple of m leave the same remainder. */
  lemma SameResidue(a: nat, b: nat, m: nat, k: int)
    requires 0 < m && a - b == k * m
    ensures a % m == b % m
  {
    var r, q := b % m, b / m;
    assert b == q * m + r && a == (q + k) * m + r;
    ResidueUnique(a, m, q + k, r);
  }

  /** Since 1009 * 914 = 1 modulo 997, row y selects exactly one residue class of columns. */
  lemma PixelResidue(x: nat, y: nat)
    ensures PixelSelected(x, y) <==> x % PIXEL_PERIOD == 826 * y % PIXEL_PERIOD
  {
    var n := x * 1009 + y * 3049;
    if PixelSelected(x, y) {
      SelectedColumn(x, y, n / 997);
    }
    if x % 997 == 826 * y % 997 {
      ColumnSelected(x, y, x / 997 - 826 * y / 997);
    }
  }

  lemma SelectedColumn(x: nat, y: nat, k: int)
    requires x * 1009 + y * 3049 == 997 * k
    ensures x % 997 == 826 * y % 997
  {
    var d := x - 826 * y;
    assert 12 * d == 997 * (k - x - 13 * y);
    SameResidue(x, 826 * y, 997, 914 * (k - x - 13 * y) - 11 * d);
  }

  lemma ColumnSelected(x: nat, y: nat, k: int)
    requires x - 826 * y == 997 * k
    ensures PixelSelected(x, y)
  {
    ResidueUnique(x * 1009 + y * 3049, 997, 12 * k + x + 13 * y, 0);
  }

  /** Since 1009 * 5 = 1 modulo 97, each channel selects exactly one residue class of samples. */
  lemma SampleResidue(s: nat, channel: nat)
    ensures SampleSelected(s, channel) <==> s % SAMPLE_PERIOD == 81 * channel % SAMPLE_PERIOD
  {
    var n := s * 1009 + channel * 3049;
    if SampleSelected(s, channel) {
      SelectedSample(s, channel, n / 97);
    }
    if s % 97 == 81 * channel % 97 {
      SampleOfClass(s, channel, s / 97 - 81 * channel / 97);
    }
  }

  lemma SelectedSample(s: nat, channel: nat, k: int)
    requires s * 1009 + channel * 3049 == 97 * k
    ensures s % 97 == 81 * channel % 97
  {
    var d := s - 81 * channel;
    assert 39 * d == 97 * (k - 10 * s - 64 * channel);
    SameResidue(s, 81 * channel, 97, 5 * (k - 10 * s - 64 * channel) - 2 * d);
  }

  lemma SampleOfClass(s: nat, channel: nat, k: int)
    requires s - 81 * channel == 97 * k
    ensures SampleSelected(s, channel)
  {
    ResidueUnique(s * 1009 + channel * 3049, 97, 39 * k + 10 * s + 64 * channel, 0);
  }

  /** The one integer of the residue class r in the window [start, start + m). */
  function InWindow(start: nat, m: nat, r: nat): (k: nat)
    requires r < m
    ensures start <= k < start + m && k % m == r
  {
    var d := (r - start) % m;
    WindowResidue(start, m, r);
    start + d
  }

  lemma WindowResidue(start: nat, m: nat, r: nat)
    requires r < m
    ensures (start + (r - start) % m) % m == r
  {
    var q := (r - start) / m;
    assert start + (r - start) % m == r + (-q) * m;
    ResidueUnique(start + (r - start) % m, m, -q, r);
  }

  lemma SameResidueApart(a: nat, b: nat, m: nat)
    requires m > 0 && a % m == b % m && a < b
    ensures b >= a + m
  {
    var k := b / m - a / m;
    assert a == a / m * m + a % m;
    assert b == b / m * m + b % m;
    assert b / m * m - a / m * m == k * m;
    MultipleOrZero(k, m);
  }

  /** On every row, exactly one column of any 997 consecutive ones is selected. */
  lemma OnePixelPerWindow(start: nat, y: nat)
    ensures exists x: nat :: start <= x < start + PIXEL_PERIOD && PixelSelected(x, y)
    ensures forall x: nat, x': nat :: start <= x < x' < start + PIXEL_PERIOD
              ==> !(PixelSelected(x, y) && PixelSelected(x', y))
  {
    var x := InWindow(start, PIXEL_PERIOD, 826 * y % PIXEL_PERIOD);
    PixelResidue(x, y);
    assert start <= x < start + PIXEL_PERIOD && PixelSelected(x, y);
    forall a: nat, b: nat | start <= a < b < start + PIXEL_PERIOD
      ensures !(PixelSelected(a, y) && PixelSelected(b, y))
    {
      PixelResidue(a, y);
      PixelResidue(b, y);
      if PixelSelected(a, y) && PixelSelected(b, y) {
        SameResidueApart(a, b, PIXEL_PERIOD);
      }
    }
  }

  /** On every channel, exactly one sample of any 97 consecutive ones is selected. */
  lemma OneSamplePerWindow(start: nat, channel: nat)
    ensures exists s: nat :: start <= s < start + SAMPLE_PERIOD && SampleSelected(s, channel)
    ensures forall s: nat, s': nat :: start <= s < s' < start + SAMPLE_PERIOD
              ==> !(SampleSelected(s, channel) && SampleSelected(s', channel))
  {
    var s := InWindow(start, SAMPLE_PERIOD, 81 * channel % SAMPLE_PERIOD);
    SampleResidue(s, channel);
    assert start <= s < start + SAMPLE_PERIOD && SampleSelected(s, channel);
    forall a: nat, b: nat | start <= a < b < start + SAMPLE_PERIOD
      ensures !(SampleSelected(a, channel) && SampleSelected(b, channel))
    {
      SampleResidue(a, channel);
      SampleResidue(b, channel);
      if SampleSelected(a, channel) && SampleSelected(b, channel) {
        SameResidueApart(a, b, SAMPLE_PERIOD);
      }
    }
  }

  /** How many of the columns 0..w are selected on row y. */
  ghost function RowCount(w: nat, y: nat): nat {
    if w == 0 then 0 else RowCount(w - 1, y) + if PixelSelected(w - 1, y) then 1 else 0
  }

  /** How many pixels of a w by h canvas are selected. */
  ghost function CanvasCount(w: nat, h: nat): nat {
    if h == 0 then 0 else CanvasCount(w, h - 1) + RowCount(w, h - 1)
  }

  /** The exact number of selected columns: those congruent to r = 826 y below w. */
  lemma {:induction false} RowCountExact(w: nat, y: nat)
    ensures RowCount(w, y) == (w + 996 - 826 * y % 997) / 997
  {
    if w > 0 {
      RowCountExact(w - 1, y);
      PixelResidue(w - 1, y);
      CountStep(w - 1, 826 * y % 997);
    }
  }

  /** Any stretch of k * 997 columns, wherever it starts, holds exactly k selected ones. */
  lemma StretchCount(start: nat, k: nat, y: nat)
    ensures RowCount(start + 997 * k, y) == RowCount(start, y) + k
  {
    RowCountExact(start + 997 * k, y);
    RowCountExact(start, y);
  }

  lemma CountStep(n: nat, r: nat)
    requires r < 997
    ensures (n + 997 - r) / 997 == (n + 996 - r) / 997 + if n % 997 == r then 1 else 0
  {
  }

  /** A w by h canvas has between h * floor(w / 997) and h * ceil(w / 997) selected pixels. */
  lemma {:induction false} CanvasCountBounds(w: nat, h: nat)
    ensures h * (w / 997) <= CanvasCount(w, h) <= h * ((w + 996) / 997)
  {
    if h > 0 {
      CanvasCountBounds(w, h - 1);
      RowCountBounds(w, h - 1);
      Distribute(h, w / 997);
      Distribute(h, (w + 996) / 997);
    }
  }

  lemma RowCountBounds(w: nat, y: nat)
    ensures w / 997 <= RowCount(w, y) <= (w + 996) / 997
  {
    RowCountExact(w, y);
  }

  lemma Distribute(h: nat, n: nat)
    requires h > 0
    ensures h * n == (h - 1) * n + n
  {
  }
}
