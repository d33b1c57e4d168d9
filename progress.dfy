/** `printProgressBar`: the integer part of the bar. The percentage, which is
    a float, and the write to the console are not part of the model. */
module Progress {
  import opened Wrappers
  import opened Json
  import opened Dicts

  /** The defaults of line 17. */
  const BarLength: int := 80
  const Fill: char := '█'

  /** Python's `a // b`, which rounds towards negative infinity. */
  function FloorDiv(a: int, b: int): (q: int)
    requires b != 0
    ensures b > 0 ==> q * b <= a < q * b + b
    ensures b < 0 ==> q * b >= a > q * b + b
  {
    if b > 0 then a / b else (-a) / (-b)
  }

  /** Python's `c * n`: `n` copies of `c`, and the empty string when `n` is
      zero or negative. */
  function Repeat(c: char, n: int): (s: string)
    ensures |s| == if n > 0 then n else 0
    ensures forall i :: 0 <= i < |s| ==> s[i] == c
    decreases n
  {
    if n <= 0 then [] else [c] + Repeat(c, n - 1)
  }

  /** Lines 18-19: `filledLength` fill characters and `length - filledLength`
      dashes. The division raises ZeroDivisionError when `total` is zero. */
  function Bar(iteration: int, total: int, length: int, fill: char): (r: Result<string, PyError>)
    ensures r.Err? <==> total == 0
    ensures r.Err? ==> r.error == ZeroDivisionError
  {
    if total == 0 then Err(ZeroDivisionError)
    else
      var filled := FloorDiv(length * iteration, total);
      Ok(Repeat(fill, filled) + Repeat('-', length - filled))
  }

  /** Within range the bar is exactly `length` wide, its first
      `length * iteration / total` characters are the fill character and the
      rest are dashes. */
  lemma BarShape(iteration: int, total: int, length: int, fill: char)
    requires 0 <= iteration <= total && total > 0 && length >= 0
    ensures Bar(iteration, total, length, fill).Ok?
    ensures var bar := Bar(iteration, total, length, fill).value;
      var filled := length * iteration / total;
      && 0 <= filled <= length
      && |bar| == length
      && (forall i :: 0 <= i < filled ==> bar[i] == fill)
      && (forall i :: filled <= i < length ==> bar[i] == '-')
  {
    var filled := length * iteration / total;
    MulDivBounds(length, iteration, total);
    assert FloorDiv(length * iteration, total) == filled;
  }

  lemma MulDivBounds(length: int, iteration: int, total: int)
    requires 0 <= iteration <= total && total > 0 && length >= 0
    ensures 0 <= length * iteration / total <= length
  {
    assert length * iteration <= length * total by {
      MulMonotone(length, iteration, total);
    }
    assert (length * total) / total == length;
    DivMonotone(length * iteration, length * total, total);
  }

  lemma MulDivCancel(a: int, d: int)
    requires d > 0
    ensures FloorDiv(a * d, d) == a
  {
    var q, r := (a * d) / d, (a * d) % d;
    assert a * d == q * d + r && 0 <= r < d;
    assert (a - q) * d == r;
    if a - q >= 1 {
      MulMonotone(d, 1, a - q);
    } else if a - q <= -1 {
      MulMonotone(d, a - q, -1);
    }
  }

  lemma MulMonotone(a: int, x: int, y: int)
    requires a >= 0 && x <= y
    ensures a * x <= a * y
  {
    assert a * y - a * x == a * (y - x);
  }

  lemma DivMonotone(a: int, b: int, d: int)
    requires 0 <= a <= b && d > 0
    ensures 0 <= a / d <= b / d
  {
    var qa, qb := a / d, b / d;
    assert qa * d <= a && b < qb * d + d;
    if qa > qb {
      MulMonotone(d, qb + 1, qa);
    }
  }

  /** The last call of a collection, with `iteration == total`, draws a
      completely filled bar. */
  lemma BarComplete(total: int, length: int, fill: char)
    requires total > 0 && length >= 0
    ensures Bar(total, total, length, fill) == Ok(Repeat(fill, length))
  {
    MulDivCancel(length, total);
    assert Repeat('-', 0) == [];
    assert Repeat(fill, length) + [] == Repeat(fill, length);
  }

  /** Past the end, with `iteration > total`, the bar is all fill and at
      least `length` wide. */
  lemma BarPastTheEnd(iteration: int, total: int, length: int, fill: char)
    requires 0 < total < iteration && length >= 0
    ensures Bar(iteration, total, length, fill).Ok?
    ensures var bar := Bar(iteration, total, length, fill).value;
      |bar| >= length && forall i :: 0 <= i < |bar| ==> bar[i] == fill
  {
    MulMonotone(length, total, iteration);
    assert (length * total) / total == length;
    DivMonotone(length * total, length * iteration, total);
  }

  /** Line 127 as written: the bar for the `i`-th listing entry uses the
      number of keys of that entry as its total. */
  function CollectionBarAsWritten(listing: seq<Object>, i: nat): Result<string, PyError>
    requires i < |listing|
  {
    Bar(i, |Keys(listing[i])|, BarLength, Fill)
  }

  /** A listing of four entries with two keys each: at the fourth entry the
      bar is 120 characters wide instead of 80. */
  lemma CollectionBarAsWrittenOverflows()
    ensures var entry := Dict(["name", "tag"], map["name" := JStr("a/b"), "tag" := JStr("v1")]);
      var bar := CollectionBarAsWritten([entry, entry, entry, entry], 3);
      bar.Ok? && |bar.value| == 120
  {
    var entry := Dict(["name", "tag"], map["name" := JStr("a/b"), "tag" := JStr("v1")]);
    assert |Keys(entry)| == 2;
    assert FloorDiv(80 * 3, 2) == 120;
  }

  /** A listing whose first entry is `{}`: line 127 divides by zero before the
      entry is even looked at. */
  lemma CollectionBarAsWrittenDividesByZero()
    ensures CollectionBarAsWritten([Empty()], 0) == Err(ZeroDivisionError)
  {
  }

  /** Line 127 as evidently intended: the position in the whole listing. */
  function CollectionBar(listing: seq<Object>, i: nat): Result<string, PyError>
    requires i <= |listing|
  {
    Bar(i, |listing|, BarLength, Fill)
  }

  /** With the listing's length as the total, every bar of a collection is
      exactly 80 characters wide. */
  lemma CollectionBarWidth(listing: seq<Object>, i: nat)
    requires 0 < |listing| && i <= |listing|
    ensures CollectionBar(listing, i).Ok? && |CollectionBar(listing, i).value| == BarLength
  {
    BarShape(i, |listing|, BarLength, Fill);
  }
}
