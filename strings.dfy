/** Small value types and the pieces of Python's string behaviour the bot relies on:
    `str.startswith`, `str.partition` and `int(str)`. */
module Strings {

  datatype Option<+T> = None | Some(value: T)

  datatype Result<+T, +E> = Ok(value: T) | Err(error: E)

  /** Python's `s.startswith(prefix)`. */
  predicate StartsWith(s: string, prefix: string)
  {
    |prefix| <= |s| && s[..|prefix|] == prefix
  }

  /** The triple returned by `s.partition(sep)`; `found` says whether the middle part is `sep` or empty. */
  datatype Parts = Parts(head: string, found: bool, tail: string)

  /** `sep` occurs in `s` starting at index `i`. */
  predicate OccursAt(s: string, sep: string, i: int)
  {
    0 <= i && i + |sep| <= |s| && s[i..i + |sep|] == sep
  }

  /** `p` is what `s.partition(sep)` returns: `s` split around the first occurrence of `sep`, or
      `s` whole when `sep` does not occur. */
  predicate SplitsAtFirst(s: string, sep: string, p: Parts)
  {
    (p.found ==> s == p.head + sep + p.tail && OccursAt(s, sep, |p.head|))
    && (!p.found ==> p.head == s && p.tail == "")
    && (forall i :: 0 <= i < |p.head| ==> !OccursAt(s, sep, i))
    && (!p.found ==> forall i :: 0 <= i <= |s| ==> !OccursAt(s, sep, i))
  }

  /** Python's `s.partition(sep)`: split at the FIRST occurrence of `sep`. */
  function Partition(s: string, sep: string): (p: Parts)
    requires |sep| > 0
    ensures SplitsAtFirst(s, sep, p)
    decreases |s|
  {
    if |s| < |sep| then Parts(s, false, "")
    else if s[..|sep|] == sep then Parts("", true, s[|sep|..])
    else
      var p := Partition(s[1..], sep);
      SplitsAtFirstCons(s, sep, p);
      Parts([s[0]] + p.head, p.found, p.tail)
  }

  /** A split of `s[1..]` extends to a split of `s` when `sep` does not start `s`. */
  lemma SplitsAtFirstCons(s: string, sep: string, p: Parts)
    requires |s| > 0 && !OccursAt(s, sep, 0)
    requires SplitsAtFirst(s[1..], sep, p)
    ensures SplitsAtFirst(s, sep, Parts([s[0]] + p.head, p.found, p.tail))
  {
    OccursShift(s, sep);
    assert s == [s[0]] + s[1..];
    var q := Parts([s[0]] + p.head, p.found, p.tail);
    forall i | 0 <= i < |q.head|
      ensures !OccursAt(s, sep, i)
    {
      if i > 0 {
        assert !OccursAt(s[1..], sep, i - 1);
      }
    }
    if !p.found {
      forall i | 0 <= i <= |s|
        ensures !OccursAt(s, sep, i)
      {
        if i > 0 {
          assert !OccursAt(s[1..], sep, i - 1);
        }
      }
    } else {
      assert s == q.head + sep + q.tail;
      assert OccursAt(s[1..], sep, |p.head|);
    }
  }

  lemma OccursShift(s: string, sep: string)
    requires |s| > 0
    ensures forall i :: 1 <= i ==> (OccursAt(s, sep, i) <==> OccursAt(s[1..], sep, i - 1))
  {
    forall i | 1 <= i
      ensures OccursAt(s, sep, i) <==> OccursAt(s[1..], sep, i - 1)
    {
      if i + |sep| <= |s| {
        assert s[1..][i - 1..i - 1 + |sep|] == s[i..i + |sep|];
      }
    }
  }

  /** When `sep` does not start anywhere inside `x`, partitioning `x + sep + y` splits exactly
      between `x` and `y`. */
  lemma PartitionAfter(x: string, sep: string, y: string)
    requires |sep| > 0
    requires forall i :: 0 <= i < |x| ==> !OccursAt(x + sep + y, sep, i)
    ensures Partition(x + sep + y, sep) == Parts(x, true, y)
  {
    var s := x + sep + y;
    var p := Partition(s, sep);
    assert s[|x|..|x| + |sep|] == sep;
    assert OccursAt(s, sep, |x|);
    assert p.found;
    assert |p.head| == |x|;
    assert p.head == s[..|x|] == x;
    assert p.tail == s[|x| + |sep|..] == y;
  }

  /** `sep` cannot start inside `x` when `x` lacks its first character. */
  lemma FirstCharAbsent(x: string, sep: string, y: string)
    requires |sep| > 0
    requires forall i :: 0 <= i < |x| ==> x[i] != sep[0]
    ensures forall i :: 0 <= i < |x| ==> !OccursAt(x + sep + y, sep, i)
  {
    var s := x + sep + y;
    forall i | 0 <= i < |x|
      ensures !OccursAt(s, sep, i)
    {
      assert s[i] == x[i];
      if i + |sep| <= |s| {
        assert s[i..i + |sep|][0] == s[i];
      }
    }
  }

  predicate IsDigit(c: char)
  {
    '0' <= c <= '9'
  }

  predicate AllDigits(s: string)
  {
    forall i :: 0 <= i < |s| ==> IsDigit(s[i])
  }

  /** The strings the model's `int(str)` accepts: an optional sign followed by at least one ASCII digit. */
  predicate IsIntLiteral(s: string)
  {
    (|s| > 0 && AllDigits(s)) || (|s| > 1 && (s[0] == '-' || s[0] == '+') && AllDigits(s[1..]))
  }

  /** Decimal value of a digit string, most significant digit first. */
  function DigitsValue(s: string): nat
    requires AllDigits(s)
    decreases |s|
  {
    if |s| == 0 then 0
    else DigitsValue(s[..|s| - 1]) * 10 + (s[|s| - 1] as int - '0' as int)
  }

  /** Python's `int(s)` for a decimal literal with an optional sign; `None` stands for `ValueError`. */
  function ParseInt(s: string): (r: Option<int>)
    ensures r.Some? <==> IsIntLiteral(s)
  {
    if |s| > 1 && (s[0] == '-' || s[0] == '+') && AllDigits(s[1..]) then
      var v: int := DigitsValue(s[1..]);
      Some(if s[0] == '-' then -v else v)
    else if |s| > 0 && AllDigits(s) then Some(DigitsValue(s))
    else None
  }

  function DigitChar(d: nat): char
    requires d < 10
  {
    ('0' as int + d) as char
  }

  /** Python's `str(n)` for a natural number. */
  function ShowNat(n: nat): (s: string)
    ensures |s| > 0 && AllDigits(s)
  {
    if n < 10 then [DigitChar(n)] else ShowNat(n / 10) + [DigitChar(n % 10)]
  }

  /** Python's `str(n)` for an integer. */
  function ShowInt(n: int): string
  {
    if n < 0 then "-" + ShowNat(-n) else ShowNat(n)
  }

  lemma {:induction false} ShowNatValue(n: nat)
    ensures DigitsValue(ShowNat(n)) == n
  {
    if n >= 10 {
      ShowNatValue(n / 10);
      var s := ShowNat(n);
      assert s[..|s| - 1] == ShowNat(n / 10);
    }
  }

  /** `int(str(n)) == n`. */
  lemma ParseShowInt(n: int)
    ensures ParseInt(ShowInt(n)) == Some(n)
  {
    if n < 0 {
      ShowNatValue(-n);
      assert ShowInt(n)[1..] == ShowNat(-n);
    } else {
      ShowNatValue(n);
    }
  }

  /** A printed integer contains no character other than a sign and digits. */
  lemma ShowIntChars(n: int, c: char)
    requires c != '-' && !IsDigit(c)
    ensures forall i :: 0 <= i < |ShowInt(n)| ==> ShowInt(n)[i] != c
  {
    if n < 0 {
      var s := ShowNat(-n);
      assert forall i :: 1 <= i < |ShowInt(n)| ==> ShowInt(n)[i] == s[i - 1];
    }
  }
}
