/** String helpers with the semantics of the JavaScript built-ins the adapter
    relies on: `Array.prototype.join`, `String.prototype.split` with a
    one-character separator, and the decimal rendering of integers used by
    template literals. */
module Strings {

  /** `parts.join(sep)`: the parts in order with `sep` between neighbours. */
  function Join(parts: seq<string>, sep: string): (r: string)
    ensures |parts| == 0 ==> r == ""
    ensures |parts| > 0 ==> parts[0] <= r
  {
    if |parts| == 0 then ""
    else if |parts| == 1 then parts[0]
    else parts[0] + sep + Join(parts[1..], sep)
  }

  /** `s.split(c)` for a one-character separator `c`: the maximal runs of
      characters other than `c`, including empty ones; never empty. */
  function Split(s: string, c: char): (r: seq<string>)
    ensures |r| >= 1
    ensures forall i :: 0 <= i < |r| ==> c !in r[i]
  {
    if |s| == 0 then [""]
    else
      var rest := Split(s[1..], c);
      if s[0] == c then [""] + rest
      else [[s[0]] + rest[0]] + rest[1..]
  }

  /** Number of occurrences of `c` in `s`. */
  function Count(s: string, c: char): nat
  {
    if |s| == 0 then 0
    else (if s[0] == c then 1 else 0) + Count(s[1..], c)
  }

  /** Splitting yields one more field than there are separators. */
  lemma {:induction false} SplitLength(s: string, c: char)
    ensures |Split(s, c)| == Count(s, c) + 1
  {
    if |s| > 0 {
      SplitLength(s[1..], c);
    }
  }

  /** Joining the fields back with the separator restores the input. */
  lemma {:induction false} JoinSplit(s: string, c: char)
    ensures Join(Split(s, c), [c]) == s
  {
    if |s| > 0 {
      var rest := Split(s[1..], c);
      JoinSplit(s[1..], c);
      if s[0] == c {
        assert ([""] + rest)[1..] == rest;
      } else {
        var parts := [[s[0]] + rest[0]] + rest[1..];
        if |rest| == 1 {
          assert Join(parts, [c]) == [s[0]] + rest[0];
        } else {
          assert parts[1..] == rest[1..];
          assert Join(rest, [c]) == rest[0] + [c] + Join(rest[1..], [c]);
        }
        assert s == [s[0]] + s[1..];
      }
    }
  }

  /** A string free of the separator splits into itself alone. */
  lemma {:induction false} SplitNoSeparator(p: string, c: char)
    requires c !in p
    ensures Split(p, c) == [p]
  {
    if |p| > 0 {
      assert p[0] != c;
      SplitNoSeparator(p[1..], c);
      assert [p[0]] + p[1..] == p;
    }
  }

  /** A separator-free prefix followed by the separator becomes the first field. */
  lemma {:induction false} SplitAtSeparator(p: string, c: char, t: string)
    requires c !in p
    ensures Split(p + [c] + t, c) == [p] + Split(t, c)
  {
    var s := p + [c] + t;
    if |p| == 0 {
      assert s[1..] == t;
    } else {
      assert s[1..] == p[1..] + [c] + t;
      SplitAtSeparator(p[1..], c, t);
      assert [s[0]] + p[1..] == p;
    }
  }

  /** Splitting inverts joining when no part contains the separator. */
  lemma {:induction false} SplitJoin(parts: seq<string>, c: char)
    requires |parts| > 0
    requires forall i :: 0 <= i < |parts| ==> c !in parts[i]
    ensures Split(Join(parts, [c]), c) == parts
  {
    if |parts| == 1 {
      SplitNoSeparator(parts[0], c);
    } else {
      SplitJoin(parts[1..], c);
      SplitAtSeparator(parts[0], c, Join(parts[1..], [c]));
      assert [parts[0]] + parts[1..] == parts;
    }
  }

  /** Fields before a last, arbitrary part are recovered by splitting. */
  lemma {:induction false} SplitJoinPrefix(parts: seq<string>, tail: string, c: char)
    requires forall i :: 0 <= i < |parts| ==> c !in parts[i]
    ensures Split(Join(parts + [tail], [c]), c) == parts + Split(tail, c)
  {
    if |parts| > 0 {
      var rest := parts[1..] + [tail];
      assert parts + [tail] == [parts[0]] + rest;
      JoinCons(parts[0], rest, [c]);
      SplitJoinPrefix(parts[1..], tail, c);
      SplitAtSeparator(parts[0], c, Join(rest, [c]));
      assert [parts[0]] + (parts[1..] + Split(tail, c)) == parts + Split(tail, c);
    } else {
      assert parts + [tail] == [tail];
    }
  }

  /** Joining a concatenation of two non-empty lists puts one separator at the seam. */
  lemma {:induction false} JoinAppend(a: seq<string>, b: seq<string>, sep: string)
    requires |a| > 0 && |b| > 0
    ensures Join(a + b, sep) == Join(a, sep) + sep + Join(b, sep)
  {
    if |a| > 1 {
      assert (a + b)[1..] == a[1..] + b;
      JoinAppend(a[1..], b, sep);
    } else {
      assert (a + b)[1..] == b;
    }
  }

  /** Joining a first part in front of a non-empty list puts one separator
      after it. */
  lemma JoinCons(x: string, rest: seq<string>, sep: string)
    requires |rest| > 0
    ensures Join([x] + rest, sep) == x + sep + Join(rest, sep)
  {
    assert ([x] + rest)[1..] == rest;
  }

  /** Concatenation regroups freely. */
  lemma Regroup<T>(a: seq<T>, b: seq<T>, c: seq<T>, d: seq<T>)
    ensures a + (b + c + d) == a + b + c + d
    ensures a + b + c + d == a + (b + (c + d))
  {
  }

  /** In a run free of `c` followed by nothing or by a part starting with
      `c`, the first `c` sits right after the run. */
  lemma FirstAfterRun(a: string, x: string, c: char)
    requires c !in a
    requires x == [] || x[0] == c
    ensures forall j :: 0 <= j < |a| ==> (a + x)[j] != c
    ensures |x| > 0 ==> (a + x)[|a|] == c
  {
    forall j | 0 <= j < |a|
      ensures (a + x)[j] != c
    {
      assert (a + x)[j] == a[j];
    }
  }

  /** Two texts, each a run free of `c` followed by either nothing or a part
      starting with `c`, split the same way when they are equal. */
  lemma CutAtFirst(a: string, b: string, x: string, y: string, c: char)
    requires c !in a && c !in b
    requires x == [] || x[0] == c
    requires y == [] || y[0] == c
    requires a + x == b + y
    ensures a == b && x == y
  {
    var s := a + x;
    FirstAfterRun(a, x, c);
    FirstAfterRun(b, y, c);
    assert |a| == |b|;
    assert a == s[..|a|] && b == (b + y)[..|b|];
    assert x == s[|a|..] && y == (b + y)[|b|..];
  }

  /** Joining is injective on non-empty lists when the separator starts
      with a character that no part contains. */
  lemma {:induction false} JoinInjective(a: seq<string>, b: seq<string>, sep: string)
    requires |sep| > 0 && |a| > 0 && |b| > 0
    requires forall i :: 0 <= i < |a| ==> sep[0] !in a[i]
    requires forall i :: 0 <= i < |b| ==> sep[0] !in b[i]
    requires Join(a, sep) == Join(b, sep)
    ensures a == b
  {
    var ra := if |a| > 1 then sep + Join(a[1..], sep) else "";
    var rb := if |b| > 1 then sep + Join(b[1..], sep) else "";
    assert Join(a, sep) == a[0] + ra;
    assert Join(b, sep) == b[0] + rb;
    CutAtFirst(a[0], b[0], ra, rb, sep[0]);
    assert |a| > 1 <==> |b| > 1;
    if |a| > 1 {
      assert Join(a[1..], sep) == ra[|sep|..] == rb[|sep|..] == Join(b[1..], sep);
      JoinInjective(a[1..], b[1..], sep);
      assert a == [a[0]] + a[1..] && b == [b[0]] + b[1..];
    }
  }

  /** Text prefixed to the first part is prefixed to the joined result. */
  lemma JoinPrefixFirst(x: string, y: string, rest: seq<string>, sep: string)
    ensures Join([x + y] + rest, sep) == x + Join([y] + rest, sep)
  {
    if |rest| > 0 {
      assert ([x + y] + rest)[1..] == rest;
      assert ([y] + rest)[1..] == rest;
    }
  }

  /** The decimal digit for `d`. */
  function DigitChar(d: nat): (ch: char)
    requires d < 10
    ensures '0' <= ch <= '9'
    ensures ch as int - '0' as int == d
  {
    (d + '0' as int) as char
  }

  predicate IsDigits(s: string)
  {
    forall i :: 0 <= i < |s| ==> '0' <= s[i] <= '9'
  }

  /** Decimal rendering of a natural number, as `String(n)` gives it:
      digits only, no leading zero unless the number is zero. */
  function NatToString(n: nat): (r: string)
    ensures |r| >= 1 && IsDigits(r)
    ensures r[0] == '0' ==> n == 0
  {
    if n < 10 then [DigitChar(n)]
    else NatToString(n / 10) + [DigitChar(n % 10)]
  }

  /** Reads a run of decimal digits back as a number. */
  function ParseNat(s: string): nat
    requires IsDigits(s)
  {
    if |s| == 0 then 0
    else ParseNat(s[..|s| - 1]) * 10 + (s[|s| - 1] as int - '0' as int)
  }

  /** Reading the rendering back gives the number: the rendering is faithful. */
  lemma {:induction false} ParseNatToString(n: nat)
    ensures ParseNat(NatToString(n)) == n
  {
    if n >= 10 {
      var r := NatToString(n);
      assert r[..|r| - 1] == NatToString(n / 10);
      ParseNatToString(n / 10);
    }
  }

  /** Distinct numbers render differently. */
  lemma NatToStringInjective(m: nat, n: nat)
    ensures NatToString(m) == NatToString(n) <==> m == n
  {
    ParseNatToString(m);
    ParseNatToString(n);
  }

  /** Decimal rendering of an integer, with a leading '-' when negative. */
  function IntToString(n: int): (r: string)
    ensures |r| >= 1
    ensures n >= 0 ==> IsDigits(r)
    ensures n < 0 ==> r[0] == '-' && IsDigits(r[1..])
  {
    if n >= 0 then NatToString(n) else "-" + NatToString(-n)
  }
}
