/** The small global helpers of the mesher: chopping of tiny numbers, the
    3x3 matrix-vector product, evenly spaced point lists and the dotted
    label keys used to address hash tables. */
module Globals {

  /** A 3-component vector (OpenFOAM `vector` / `point`). */
  type Vector = v: seq<real> | |v| == 3 witness [0.0, 0.0, 0.0]

  function Abs(a: real): real {
    if a < 0.0 then -a else a
  }

  // ---------------------------------------------------------------------
  // chop
  // ---------------------------------------------------------------------

  /** Replaces a number whose magnitude is below the tolerance `tol` by 0.
      `tol` stands for the library constant CHOP, whose value is not part
      of this model. */
  function Chop(a: real, tol: real): (r: real)
    ensures r == 0.0 || r == a
    ensures r == 0.0 <==> (Abs(a) < tol || a == 0.0)
    ensures Abs(r) <= Abs(a)
  {
    if Abs(a) < tol then 0.0 else a
  }

  /** Chopping twice is chopping once, whatever the tolerance. */
  lemma ChopIdempotent(a: real, tol: real)
    ensures Chop(Chop(a, tol), tol) == Chop(a, tol)
  {
  }

  /** A chopped number is either zero or at least `tol` in magnitude. */
  lemma ChopGap(a: real, tol: real)
    ensures Chop(a, tol) == 0.0 || Abs(Chop(a, tol)) >= tol
  {
  }

  /** The in-place vector chop: walks the components and chops each one. */
  method ChopInPlace(v: Vector, tol: real) returns (out: Vector)
    ensures forall c :: 0 <= c < 3 ==> out[c] == Chop(v[c], tol)
  {
    out := v;
    var c := 0;
    while c < 3
      invariant 0 <= c <= 3
      invariant forall d :: 0 <= d < c ==> out[d] == Chop(v[d], tol)
      invariant forall d :: c <= d < 3 ==> out[d] == v[d]
    {
      out := out[c := Chop(out[c], tol)];
      c := c + 1;
    }
  }

  /** The copying vector chop: copies the vector and chops the copy, so it
      gives the same components as the in-place chop. */
  method ChopCopy(v: Vector, tol: real) returns (out: Vector)
    ensures forall c :: 0 <= c < 3 ==> out[c] == Chop(v[c], tol)
  {
    out := ChopInPlace(v, tol);
  }

  // ---------------------------------------------------------------------
  // matrix-vector dot product
  // ---------------------------------------------------------------------

  /** A square matrix of which the product reads the leading 3x3 block. */
  predicate AtLeast3x3(m: seq<seq<real>>) {
    |m| >= 3 && forall row :: 0 <= row < 3 ==> |m[row]| >= 3
  }

  /** Sum of `m[row][col] * u[col]` over the first `n` columns. */
  function RowDot(m: seq<seq<real>>, u: Vector, row: nat, n: nat): real
    requires AtLeast3x3(m) && row < 3 && n <= 3
  {
    if n == 0 then 0.0 else RowDot(m, u, row, n - 1) + m[row][n - 1] * u[n - 1]
  }

  /** The matrix-vector product `M.U`: row by row, accumulating the products
      over the columns. */
  method MatVecDot(m: seq<seq<real>>, u: Vector) returns (out: Vector)
    requires AtLeast3x3(m)
    ensures forall row :: 0 <= row < 3 ==>
      out[row] == m[row][0] * u[0] + m[row][1] * u[1] + m[row][2] * u[2]
  {
    out := [0.0, 0.0, 0.0];
    var row := 0;
    while row < 3
      invariant 0 <= row <= 3
      invariant forall r :: 0 <= r < row ==> out[r] == RowDot(m, u, r, 3)
    {
      out := out[row := 0.0];
      var col := 0;
      while col < 3
        invariant 0 <= col <= 3
        invariant out[row] == RowDot(m, u, row, col)
        invariant forall r :: 0 <= r < row ==> out[r] == RowDot(m, u, r, 3)
      {
        out := out[row := out[row] + m[row][col] * u[col]];
        col := col + 1;
      }
      row := row + 1;
    }
    forall r | 0 <= r < 3
      ensures out[r] == m[r][0] * u[0] + m[r][1] * u[1] + m[r][2] * u[2]
    {
      assert RowDot(m, u, r, 3) == RowDot(m, u, r, 2) + m[r][2] * u[2];
      assert RowDot(m, u, r, 2) == RowDot(m, u, r, 1) + m[r][1] * u[1];
      assert RowDot(m, u, r, 1) == RowDot(m, u, r, 0) + m[r][0] * u[0];
    }
  }

  // ---------------------------------------------------------------------
  // linear lists
  // ---------------------------------------------------------------------

  /** Inner point `j` (1-based) of `innerPoints` points strictly between
      `a` and `b`, as the source computes it, where `jmax = innerPoints + 1`. */
  function InnerPoint(a: real, b: real, jmax: nat, j: nat): real
    requires jmax > 0
  {
    ((jmax - j) as real * a + j as real * b) / jmax as real
  }

  /** Point `j` of `jmax` equal steps from `a` towards `b`. */
  function LinePoint(a: real, b: real, jmax: nat, j: int): real
    requires jmax > 0
  {
    a + j as real * (b - a) / jmax as real
  }

  /** The source's weighted mean is the point on the line from `a` to `b`. */
  lemma InnerPointOnLine(a: real, b: real, jmax: nat, j: nat)
    requires jmax > 0
    ensures InnerPoint(a, b, jmax, j) == LinePoint(a, b, jmax, j)
  {
    var J := jmax as real;
    calc {
      InnerPoint(a, b, jmax, j);
      ((J - j as real) * a + j as real * b) / J;
      (J * a + j as real * (b - a)) / J;
      a + j as real * (b - a) / J;
    }
  }

  /** Consecutive line points are `(b - a) / jmax` apart. */
  lemma LinePointStep(a: real, b: real, jmax: nat, j: int)
    requires jmax > 0
    ensures LinePoint(a, b, jmax, j + 1) - LinePoint(a, b, jmax, j) == (b - a) / jmax as real
  {
    var J := jmax as real;
    assert (j + 1) as real * (b - a) == j as real * (b - a) + (b - a);
    assert (j as real * (b - a) + (b - a)) / J == j as real * (b - a) / J + (b - a) / J;
  }

  /** Offset of the first inner point in the list. */
  function StartOffset(withStart: bool): nat {
    if withStart then 1 else 0
  }

  /** The evenly spaced list from `a` to `b` with `innerPoints` points in
      between, optionally with `a` in front and `b` at the end. */
  method LinearList(a: real, b: real, innerPoints: nat, withStart: bool, withEnd: bool)
    returns (out: seq<real>)
    ensures |out| == innerPoints + StartOffset(withStart) + (if withEnd then 1 else 0)
    ensures withStart ==> out[0] == a
    ensures withEnd ==> out[|out| - 1] == b
    ensures forall i :: StartOffset(withStart) <= i < StartOffset(withStart) + innerPoints ==>
      out[i] == LinePoint(a, b, innerPoints + 1, i - StartOffset(withStart) + 1)
  {
    out := [];
    var counter := 0;
    if withStart {
      out := out + [a];
      counter := counter + 1;
    }
    var s := counter;
    assert s == StartOffset(withStart);
    var jmax := innerPoints + 1;
    var i := 0;
    while i < innerPoints
      invariant 0 <= i <= innerPoints
      invariant counter == s + i && |out| == counter
      invariant withStart ==> out[0] == a
      invariant forall k :: s <= k < s + i ==> out[k] == InnerPoint(a, b, jmax, k - s + 1)
    {
      var j := i + 1;
      out := out + [InnerPoint(a, b, jmax, j)];
      counter := counter + 1;
      i := i + 1;
    }
    var inner := out;
    if withEnd {
      out := out + [b];
    }
    forall k | s <= k < s + innerPoints
      ensures out[k] == LinePoint(a, b, jmax, k - s + 1)
    {
      assert out[k] == inner[k] == InnerPoint(a, b, jmax, k - s + 1);
      InnerPointOnLine(a, b, jmax, k - s + 1);
    }
  }

  /** With both ends the list is equally spaced from `a` to `b`; when
      `a == b` it is constant. */
  method LinearListEquallySpaced(a: real, b: real, innerPoints: nat) returns (out: seq<real>)
    ensures |out| == innerPoints + 2
    ensures out[0] == a && out[|out| - 1] == b
    ensures forall k :: 0 <= k < |out| - 1 ==>
      out[k + 1] - out[k] == (b - a) / (innerPoints + 1) as real
    ensures a == b ==> forall k :: 0 <= k < |out| ==> out[k] == a
  {
    out := LinearList(a, b, innerPoints, true, true);
    var jmax := innerPoints + 1;
    forall k | 0 <= k < |out|
      ensures out[k] == LinePoint(a, b, jmax, k)
    {
      ListPointOnLine(out, a, b, innerPoints, k);
    }
    forall k | 0 <= k < |out| - 1
      ensures out[k + 1] - out[k] == (b - a) / jmax as real
    {
      LinePointStep(a, b, jmax, k);
    }
  }

  lemma ListPointOnLine(out: seq<real>, a: real, b: real, innerPoints: nat, k: nat)
    requires |out| == innerPoints + 2 && out[0] == a && out[|out| - 1] == b
    requires forall i :: 1 <= i < 1 + innerPoints ==> out[i] == LinePoint(a, b, innerPoints + 1, i - 1 + 1)
    requires k < |out|
    ensures out[k] == LinePoint(a, b, innerPoints + 1, k)
  {
    if k == innerPoints + 1 {
      assert k as real * (b - a) / (innerPoints + 1) as real == b - a;
    }
  }

  // ---------------------------------------------------------------------
  // hash keys "i.j", "i.j.k", "i.j.k.l"
  // ---------------------------------------------------------------------

  function DigitChar(d: nat): (c: char)
    requires d < 10
    ensures '0' <= c <= '9'
  {
    ('0' as int + d) as char
  }

  /** Decimal digits of a natural number, most significant first. */
  function NatToDecimal(n: nat): (s: string)
    ensures |s| > 0
    ensures forall k :: 0 <= k < |s| ==> '0' <= s[k] <= '9'
  {
    if n < 10 then [DigitChar(n)] else NatToDecimal(n / 10) + [DigitChar(n % 10)]
  }

  /** Decimal rendering of a label, with a leading '-' for negatives. */
  function LabelToString(i: int): (s: string)
    ensures |s| > 0 && '.' !in s
  {
    if i < 0 then "-" + NatToDecimal(-i) else NatToDecimal(i)
  }

  /** Reads back a string of decimal digits. */
  function ParseDigits(s: string): nat {
    if |s| == 0 then 0
    else
      var d := s[|s| - 1] as int - '0' as int;
      ParseDigits(s[..|s| - 1]) * 10 + (if 0 <= d < 10 then d else 0)
  }

  /** Reads back a decimal label rendering. */
  function ParseLabel(s: string): int {
    if |s| > 0 && s[0] == '-' then 0 - ParseDigits(s[1..]) as int else ParseDigits(s)
  }

  lemma {:induction false} ParseNatToDecimal(n: nat)
    ensures ParseDigits(NatToDecimal(n)) == n
  {
    if n >= 10 {
      var s := NatToDecimal(n);
      assert s[..|s| - 1] == NatToDecimal(n / 10);
      ParseNatToDecimal(n / 10);
    }
  }

  /** Rendering a label and reading it back gives the label. */
  lemma ParseLabelToString(i: int)
    ensures ParseLabel(LabelToString(i)) == i
  {
    if i < 0 {
      assert LabelToString(i)[1..] == NatToDecimal(-i);
      ParseNatToDecimal(-i);
    } else {
      ParseNatToDecimal(i);
    }
  }

  /** key(i, j): the labels joined by '.'. */
  function Key2(i: int, j: int): string {
    LabelToString(i) + "." + LabelToString(j)
  }

  /** key(i, j, k). */
  function Key3(i: int, j: int, k: int): string {
    LabelToString(i) + "." + LabelToString(j) + "." + LabelToString(k)
  }

  /** key(i, j, k, l). */
  function Key4(i: int, j: int, k: int, l: int): string {
    LabelToString(i) + "." + LabelToString(j) + "." + LabelToString(k) + "." + LabelToString(l)
  }

  /** Splits a string at every '.'; `cur` is the field read so far. */
  function SplitFrom(s: string, cur: string): (r: seq<string>)
    ensures |r| > 0
    decreases |s|
  {
    if |s| == 0 then [cur]
    else if s[0] == '.' then [cur] + SplitFrom(s[1..], "")
    else SplitFrom(s[1..], cur + [s[0]])
  }

  function SplitDots(s: string): seq<string> {
    SplitFrom(s, "")
  }

  /** The labels a dotted key stands for. */
  function Unkey(s: string): (r: seq<int>)
    ensures |r| == |SplitDots(s)|
  {
    var fields := SplitDots(s);
    seq(|fields|, n requires 0 <= n < |fields| => ParseLabel(fields[n]))
  }

  lemma {:induction false} SplitFromField(x: string, rest: string, cur: string)
    requires '.' !in x
    ensures SplitFrom(x + rest, cur) == SplitFrom(rest, cur + x)
    decreases |x|
  {
    if |x| > 0 {
      assert (x + rest)[0] == x[0];
      assert (x + rest)[1..] == x[1..] + rest;
      SplitFromField(x[1..], rest, cur + [x[0]]);
      assert cur + [x[0]] + x[1..] == cur + x;
    } else {
      assert x + rest == rest;
      assert cur + x == cur;
    }
  }

  /** A dot-free field followed by '.' splits off as the first field. */
  lemma SplitDotsCons(x: string, rest: string)
    requires '.' !in x
    ensures SplitDots(x + "." + rest) == [x] + SplitDots(rest)
  {
    SplitFromField(x, "." + rest, "");
    assert x + "." + rest == x + ("." + rest);
    assert ("." + rest)[1..] == rest;
    assert "" + x == x;
  }

  lemma SplitDotsField(x: string)
    requires '.' !in x
    ensures SplitDots(x) == [x]
  {
    SplitFromField(x, "", "");
    assert x + "" == x;
    assert "" + x == x;
  }

  lemma UnkeyFields(fields: seq<string>, labels: seq<int>, s: string)
    requires SplitDots(s) == fields && |fields| == |labels|
    requires forall n :: 0 <= n < |fields| ==> fields[n] == LabelToString(labels[n])
    ensures Unkey(s) == labels
  {
    forall n | 0 <= n < |fields|
      ensures Unkey(s)[n] == labels[n]
    {
      ParseLabelToString(labels[n]);
    }
  }

  /** Reading back key(i, j) gives [i, j]. */
  lemma UnkeyKey2(i: int, j: int)
    ensures Unkey(Key2(i, j)) == [i, j]
  {
    var a, b := LabelToString(i), LabelToString(j);
    SplitDotsCons(a, b);
    SplitDotsField(b);
    UnkeyFields([a, b], [i, j], Key2(i, j));
  }

  /** Reading back key(i, j, k) gives [i, j, k]. */
  lemma UnkeyKey3(i: int, j: int, k: int)
    ensures Unkey(Key3(i, j, k)) == [i, j, k]
  {
    var a, b, c := LabelToString(i), LabelToString(j), LabelToString(k);
    assert Key3(i, j, k) == a + "." + (b + "." + c);
    SplitDotsCons(a, b + "." + c);
    SplitDotsCons(b, c);
    SplitDotsField(c);
    UnkeyFields([a, b, c], [i, j, k], Key3(i, j, k));
  }

  /** Reading back key(i, j, k, l) gives [i, j, k, l]. */
  lemma UnkeyKey4(i: int, j: int, k: int, l: int)
    ensures Unkey(Key4(i, j, k, l)) == [i, j, k, l]
  {
    var a, b, c, d := LabelToString(i), LabelToString(j), LabelToString(k), LabelToString(l);
    assert Key4(i, j, k, l) == a + "." + (b + "." + (c + "." + d));
    SplitDotsCons(a, b + "." + (c + "." + d));
    SplitDotsCons(b, c + "." + d);
    SplitDotsCons(c, d);
    SplitDotsField(d);
    UnkeyFields([a, b, c, d], [i, j, k, l], Key4(i, j, k, l));
  }

  /** Distinct label pairs give distinct keys. */
  lemma Key2Injective(i: int, j: int, i': int, j': int)
    ensures Key2(i, j) == Key2(i', j') <==> (i == i' && j == j')
  {
    UnkeyKey2(i, j);
    UnkeyKey2(i', j');
  }

  /** Distinct label triples give distinct keys. */
  lemma Key3Injective(i: int, j: int, k: int, i': int, j': int, k': int)
    ensures Key3(i, j, k) == Key3(i', j', k') <==> (i == i' && j == j' && k == k')
  {
    UnkeyKey3(i, j, k);
    UnkeyKey3(i', j', k');
  }

  /** Distinct label quadruples give distinct keys. */
  lemma Key4Injective(i: int, j: int, k: int, l: int, i': int, j': int, k': int, l': int)
    ensures Key4(i, j, k, l) == Key4(i', j', k', l') <==> (i == i' && j == j' && k == k' && l == l')
  {
    UnkeyKey4(i, j, k, l);
    UnkeyKey4(i', j', k', l');
  }
}
