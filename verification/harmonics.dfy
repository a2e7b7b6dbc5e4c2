/** The harmonic series of one band (`high_v`): the lengths at which a
    wire has a high-voltage end, as windows between two band edges. */
module Harmonics {
  import opened Bands

  /** A length window in feet, from `start` to `end`. */
  datatype Segment = Segment(start: real, end: real)

  /** The half-wave dipole formula: 468 divided by a frequency in MHz gives
      a length in feet. */
  function HalfWave(mhz: nat): (len: real)
    requires mhz > 0
    ensures len > 0.0
  {
    468.0 / mhz as real
  }

  /** `f64 as usize` on a number: rounds toward zero, and a negative number
      saturates to zero. */
  function Truncate(x: real): (n: nat)
    ensures x < 0.0 ==> n == 0
    ensures x >= 0.0 ==> n as real <= x < n as real + 1.0
  {
    if x < 0.0 then 0 else x.Floor
  }

  /** The harmonics 1..count of a window whose fundamental runs from `len0`
      to `len1`. */
  function Multiples(count: nat, len0: real, len1: real): (r: seq<Segment>)
    ensures |r| == count
    ensures forall i | 0 <= i < count :: r[i] == Segment((i + 1) as real * len0, (i + 1) as real * len1)
  {
    if count == 0 then []
    else Multiples(count - 1, len0, len1) + [Segment(count as real * len0, count as real * len1)]
  }

  /** `high_v`: one window per harmonic whose short end fits under `lenMax`.
      The short end comes from the row's value (`468/b.1`) and the long end
      from its designator (`468/b.0`). */
  function HighV(row: BandRow, lenMax: real): (r: seq<Segment>)
    requires row.designator > 0 && row.value > 0
    ensures lenMax < 0.0 ==> |r| == 0
    ensures lenMax >= 0.0 ==>
      |r| as real * HalfWave(row.value) <= lenMax < (|r| + 1) as real * HalfWave(row.value)
    ensures forall i | 0 <= i < |r| ::
      r[i] == Segment((i + 1) as real * HalfWave(row.value), (i + 1) as real * HalfWave(row.designator))
  {
    var len1 := HalfWave(row.designator);
    var len0 := HalfWave(row.value);
    var count := Truncate(lenMax / len0);
    TruncateScaled(lenMax, len0);
    Multiples(count, len0, len1)
  }

  /** Truncating `q/l` counts the whole multiples of `l` up to `q`. */
  lemma TruncateScaled(q: real, l: real)
    requires l > 0.0
    ensures q >= 0.0 ==> Truncate(q / l) as real * l <= q < (Truncate(q / l) + 1) as real * l
  {
    if q >= 0.0 {
      var x := q / l;
      var n := Truncate(x);
      var m := (n + 1) as real;
      assert x >= 0.0;
      assert n as real <= x < m;
      assert x * l == q;
      MulLe(n as real, x, l);
      MulLt(x, m, l);
      assert x * l < m * l;
      assert q < m * l;
      assert n as real * l <= q;
    }
  }

  /** Multiplying by a positive length keeps order. */
  lemma MulLe(a: real, b: real, l: real)
    requires l > 0.0 && a <= b
    ensures a * l <= b * l
  {
  }

  /** Multiplying by a positive length keeps strict order. */
  lemma MulLt(a: real, b: real, l: real)
    requires l > 0.0 && a < b
    ensures a * l < b * l
  {
  }

  /** The series is empty exactly when even the fundamental's short end is
      beyond the cutoff. */
  lemma HighVEmpty(row: BandRow, lenMax: real)
    requires row.designator > 0 && row.value > 0
    ensures |HighV(row, lenMax)| == 0 <==> lenMax < HalfWave(row.value)
  {
    var n := |HighV(row, lenMax)|;
    if lenMax >= 0.0 && n > 0 {
      MulLe(1.0, n as real, HalfWave(row.value));
    }
  }

  /** For a row whose designator is at most its value, every window runs
      forward, both ends of the windows strictly increase, and every short
      end fits under the cutoff. */
  lemma HighVOrdered(row: BandRow, lenMax: real)
    requires 0 < row.designator <= row.value
    ensures var r := HighV(row, lenMax);
      && (forall i | 0 <= i < |r| :: r[i].start <= r[i].end)
      && (forall i, j | 0 <= i < j < |r| :: r[i].start < r[j].start)
      && (forall i, j | 0 <= i < j < |r| :: r[i].end < r[j].end)
      && (forall i | 0 <= i < |r| :: r[i].start <= lenMax)
  {
    var r := HighV(row, lenMax);
    var len0, len1 := HalfWave(row.value), HalfWave(row.designator);
    DivLe(468.0, row.designator as real, row.value as real);
    SeriesOrdered(r, len0, len1, lenMax);
  }

  /** The ordering facts for any series of multiples whose last short end
      fits under `lenMax`. */
  lemma SeriesOrdered(r: seq<Segment>, len0: real, len1: real, lenMax: real)
    requires 0.0 < len0 <= len1
    requires forall i | 0 <= i < |r| :: r[i] == Segment((i + 1) as real * len0, (i + 1) as real * len1)
    requires |r| == 0 || |r| as real * len0 <= lenMax
    ensures forall i | 0 <= i < |r| :: r[i].start <= r[i].end
    ensures forall i, j | 0 <= i < j < |r| :: r[i].start < r[j].start
    ensures forall i, j | 0 <= i < j < |r| :: r[i].end < r[j].end
    ensures forall i | 0 <= i < |r| :: r[i].start <= lenMax
  {
    forall i | 0 <= i < |r|
      ensures r[i].start <= r[i].end
    {
      WindowForward(r[i], i + 1, len0, len1);
    }
    forall i | 0 <= i < |r|
      ensures r[i].start <= lenMax
    {
      WindowWithin(r[i].start, i + 1, |r|, len0, lenMax);
    }
    forall i, j | 0 <= i < j < |r|
      ensures r[i].start < r[j].start
    {
      StartsIncrease(r[i].start, r[j].start, i + 1, j + 1, len0);
    }
    forall i, j | 0 <= i < j < |r|
      ensures r[i].end < r[j].end
    {
      StartsIncrease(r[i].end, r[j].end, i + 1, j + 1, len1);
    }
  }

  /** Harmonic `n` of a forward fundamental runs forward. */
  lemma WindowForward(w: Segment, n: nat, len0: real, len1: real)
    requires 0.0 < len0 <= len1 && n > 0
    requires w == Segment(n as real * len0, n as real * len1)
    ensures w.start <= w.end
  {
    MulLe(len0, len1, n as real);
  }

  /** Harmonic `m`'s short end is within the cutoff when harmonic `n >= m`'s is. */
  lemma WindowWithin(start: real, m: nat, n: nat, len0: real, lenMax: real)
    requires m <= n && len0 > 0.0
    requires start == m as real * len0 && n as real * len0 <= lenMax
    ensures start <= lenMax
  {
    MulLe(m as real, n as real, len0);
  }

  /** A higher harmonic lies further out, at either end. */
  lemma StartsIncrease(si: real, sj: real, m: nat, n: nat, len0: real)
    requires m < n && len0 > 0.0
    requires si == m as real * len0 && sj == n as real * len0
    ensures si < sj
  {
    MulLt(m as real, n as real, len0);
  }

  /** Dividing a positive constant by a larger number gives less. */
  lemma DivLe(c: real, a: real, b: real)
    requires c > 0.0 && 0.0 < a <= b
    ensures c / b <= c / a
  {
    assert c / b * b == c;
    assert c / a * a == c;
    if c / b > c / a {
      MulLt(c / a, c / b, a);
      MulLe(a, b, c / b);
    }
  }

  /** Strict order of multiples of a positive length is order of the factors. */
  lemma CancelLt(a: real, b: real, l: real)
    requires l > 0.0 && a * l < b * l
    ensures a < b
  {
    if a >= b {
      MulLe(b, a, l);
    }
  }

  /** A longer cutoff never yields fewer harmonics. */
  lemma HighVMonotone(row: BandRow, lenMax: real, lenMax': real)
    requires row.designator > 0 && row.value > 0
    requires lenMax <= lenMax'
    ensures |HighV(row, lenMax)| <= |HighV(row, lenMax')|
  {
    var h, h' := HighV(row, lenMax), HighV(row, lenMax');
    if lenMax >= 0.0 {
      CountsOrdered(|h|, |h'|, HalfWave(row.value), lenMax, lenMax');
    }
  }

  /** If `n` multiples of `l` fit under `a`, and `n' + 1` multiples exceed
      `b >= a`, then `n <= n'`. */
  lemma CountsOrdered(n: nat, n': nat, l: real, a: real, b: real)
    requires l > 0.0 && a <= b
    requires n as real * l <= a && b < (n' + 1) as real * l
    ensures n <= n'
  {
    CancelLt(n as real, (n' + 1) as real, l);
  }
}
