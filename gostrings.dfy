/**
 * The pieces of Go's `strings` and `fmt` packages that the inventory code relies on,
 * written out on `seq<char>`.
 */
module GoStrings {

  /** `strings.HasSuffix(s, suffix)`. */
  predicate HasSuffix(s: string, suffix: string) {
    |suffix| <= |s| && s[|s| - |suffix|..] == suffix
  }

  /**
   * `strings.Replace(s, pat, rep, -1)` for a non-empty pattern: every non-overlapping
   * occurrence of `pat`, scanning left to right, is replaced by `rep`.
   */
  function ReplaceAll(s: string, pat: string, rep: string): string
    requires |pat| > 0
    decreases |s|
  {
    if |s| < |pat| then s
    else if s[..|pat|] == pat then rep + ReplaceAll(s[|pat|..], pat, rep)
    else [s[0]] + ReplaceAll(s[1..], pat, rep)
  }

  /** A pattern whose first character does not occur leaves the text unchanged. */
  lemma {:induction false} ReplaceAbsent(s: string, pat: string, rep: string)
    requires |pat| > 0 && pat[0] !in s
    ensures ReplaceAll(s, pat, rep) == s
  {
    if |s| >= |pat| {
      assert s[..|pat|][0] == s[0] != pat[0];
      assert s[1..][..] == s[1..];
      assert pat[0] !in s[1..] by {
        forall i | 0 <= i < |s[1..]| ensures s[1..][i] != pat[0] { assert s[1..][i] == s[i + 1]; }
      }
      ReplaceAbsent(s[1..], pat, rep);
      assert [s[0]] + s[1..] == s;
    }
  }

  /** Replacing a single character distributes over concatenation. */
  lemma {:induction false} ReplaceCharAppend(a: string, b: string, c: char, rep: string)
    ensures ReplaceAll(a + b, [c], rep) == ReplaceAll(a, [c], rep) + ReplaceAll(b, [c], rep)
  {
    if a == [] {
      assert a + b == b;
    } else {
      assert (a + b)[0] == a[0];
      assert (a + b)[..1] == [a[0]] && a[..1] == [a[0]];
      assert (a + b)[1..] == a[1..] + b;
      ReplaceCharAppend(a[1..], b, c, rep);
    }
  }

  /** Replacing a single character by a single character works position by position. */
  lemma {:induction false} ReplaceCharAt(s: string, c: char, d: char)
    ensures |ReplaceAll(s, [c], [d])| == |s|
    ensures forall i :: 0 <= i < |s| ==> ReplaceAll(s, [c], [d])[i] == (if s[i] == c then d else s[i])
  {
    if s != [] {
      assert s[..1] == [s[0]];
      ReplaceCharAt(s[1..], c, d);
      var r := ReplaceAll(s, [c], [d]);
      assert r == [if s[0] == c then d else s[0]] + ReplaceAll(s[1..], [c], [d]);
      forall i | 0 <= i < |s| ensures r[i] == (if s[i] == c then d else s[i]) {
        if i > 0 { assert s[1..][i - 1] == s[i]; }
      }
    }
  }

  /**
   * `strings.Split(s, [c])[0]`: the text before the first `c`, or all of `s` when
   * there is none.
   */
  function BeforeFirst(s: string, c: char): (r: string)
    ensures |r| <= |s| && r == s[..|r|]
    ensures c !in r
    ensures |r| == |s| || s[|r|] == c
  {
    if |s| == 0 || s[0] == c then ""
    else [s[0]] + BeforeFirst(s[1..], c)
  }

  /** Number of occurrences of `c` in `s`. */
  function CountChar(s: string, c: char): nat {
    if s == [] then 0 else (if s[0] == c then 1 else 0) + CountChar(s[1..], c)
  }

  lemma {:induction false} CountCharAppend(a: string, b: string, c: char)
    ensures CountChar(a + b, c) == CountChar(a, c) + CountChar(b, c)
  {
    if a == [] {
      assert a + b == b;
    } else {
      assert (a + b)[0] == a[0];
      assert (a + b)[1..] == a[1..] + b;
      CountCharAppend(a[1..], b, c);
    }
  }

  lemma {:induction false} CountCharAbsent(s: string, c: char)
    requires c !in s
    ensures CountChar(s, c) == 0
  {
    if s != [] {
      assert c !in s[1..] by {
        forall i | 0 <= i < |s[1..]| ensures s[1..][i] != c { assert s[1..][i] == s[i + 1]; }
      }
      CountCharAbsent(s[1..], c);
    }
  }

  predicate IsDigit(ch: char) {
    '0' <= ch <= '9'
  }

  function DigitChar(d: nat): (ch: char)
    requires d < 10
    ensures IsDigit(ch)
  {
    (48 + d) as char
  }

  /** `fmt.Sprintf("%d", n)` for a non-negative integer. */
  function Decimal(n: nat): (r: string)
    ensures |r| >= 1
    ensures forall i :: 0 <= i < |r| ==> IsDigit(r[i])
    ensures |r| == 1 <==> n < 10
  {
    if n < 10 then [DigitChar(n)] else Decimal(n / 10) + [DigitChar(n % 10)]
  }

  /** Decimal text determines the number. */
  lemma {:induction false} DecimalInjective(m: nat, n: nat)
    requires Decimal(m) == Decimal(n)
    ensures m == n
  {
    if m >= 10 && n >= 10 {
      var dm, dn := Decimal(m), Decimal(n);
      assert dm[..|dm| - 1] == Decimal(m / 10);
      assert dn[..|dn| - 1] == Decimal(n / 10);
      DecimalInjective(m / 10, n / 10);
      assert dm[|dm| - 1] == DigitChar(m % 10);
      assert dn[|dn| - 1] == DigitChar(n % 10);
    }
  }

  /** A character that is not a digit does not occur in decimal text. */
  lemma DecimalHasNo(n: nat, ch: char)
    requires !IsDigit(ch)
    ensures ch !in Decimal(n)
  {
  }

  /** The text before the first separator of `x + [sep] + y` is `x` when `x` has none. */
  lemma {:induction false} BeforeFirstOfJoin(x: string, y: string, sep: char)
    requires sep !in x
    ensures BeforeFirst(x + ([sep] + y), sep) == x
  {
    if x == [] {
      assert x + ([sep] + y) == [sep] + y;
    } else {
      var s := x + ([sep] + y);
      assert s[0] == x[0] != sep;
      assert s[1..] == x[1..] + ([sep] + y);
      assert sep !in x[1..] by {
        forall i | 0 <= i < |x[1..]| ensures x[1..][i] != sep { assert x[1..][i] == x[i + 1]; }
      }
      BeforeFirstOfJoin(x[1..], y, sep);
      assert [x[0]] + x[1..] == x;
    }
  }

  /**
   * Splitting at the first separator: if neither head contains the separator, equal
   * texts have equal heads and equal tails.
   */
  lemma SplitAtSeparator(x: string, y: string, x': string, y': string, sep: char)
    requires sep !in x && sep !in x'
    requires x + ([sep] + y) == x' + ([sep] + y')
    ensures x == x' && y == y'
  {
    var s := x + ([sep] + y);
    BeforeFirstOfJoin(x, y, sep);
    BeforeFirstOfJoin(x', y', sep);
    assert y == s[|x| + 1..] && y' == s[|x'| + 1..];
  }

  function HexDigit(d: nat): (ch: char)
    requires d < 16
  {
    if d < 10 then (48 + d) as char else (87 + d) as char
  }

  /** `fmt.Sprintf("%02x", b)` for one byte. */
  function Hex2(b: nat): (r: string)
    requires b < 256
  {
    [HexDigit(b / 16), HexDigit(b % 16)]
  }

  /** The texts `f(x)` of all elements, concatenated in order (output written piece by piece). */
  function ConcatMap<T>(xs: seq<T>, f: T -> string): string
    decreases |xs|
  {
    if xs == [] then "" else ConcatMap(xs[..|xs| - 1], f) + f(xs[|xs| - 1])
  }

  lemma {:induction false} ConcatMapAppend<T>(a: seq<T>, b: seq<T>, f: T -> string)
    ensures ConcatMap(a + b, f) == ConcatMap(a, f) + ConcatMap(b, f)
    decreases |b|
  {
    if b == [] {
      assert a + b == a;
    } else {
      assert (a + b)[..|a + b| - 1] == a + b[..|b| - 1];
      ConcatMapAppend(a, b[..|b| - 1], f);
    }
  }

  /** Pieces with `k` occurrences of `c` each give `k` per element in total. */
  lemma {:induction false} ConcatMapCount<T>(xs: seq<T>, f: T -> string, c: char, k: nat)
    requires forall i :: 0 <= i < |xs| ==> CountChar(f(xs[i]), c) == k
    ensures CountChar(ConcatMap(xs, f), c) == k * |xs|
    decreases |xs|
  {
    if xs != [] {
      var init := xs[..|xs| - 1];
      assert forall i :: 0 <= i < |init| ==> init[i] == xs[i];
      ConcatMapCount(init, f, c, k);
      CountCharAppend(ConcatMap(init, f), f(xs[|xs| - 1]), c);
      MulSucc(k, |init|);
    }
  }

  lemma MulSucc(k: nat, n: nat)
    ensures k * (n + 1) == k * n + k
  {
  }

  /** Replacing in `x + pat` where `x` holds no first character of `pat` leaves `x`. */
  lemma {:induction false} ReplaceNoMatchPrefix(x: string, pat: string)
    requires |pat| > 0 && pat[0] !in x
    ensures ReplaceAll(x + pat, pat, "") == x
    decreases |x|
  {
    if x == [] {
      assert x + pat == pat;
      assert pat[|pat|..] == [];
    } else {
      assert (x + pat)[..|pat|] != pat by {
        assert (x + pat)[0] == x[0];
      }
      assert (x + pat)[1..] == x[1..] + pat;
      ReplaceNoMatchPrefix(x[1..], pat);
    }
  }

  /** The decimal texts the worked examples use. */
  lemma SmallDecimals()
    ensures Decimal(0) == "0" && Decimal(1) == "1" && Decimal(10) == "10" && Decimal(24) == "24"
  {
    assert Decimal(10) == Decimal(1) + [DigitChar(0)];
    assert Decimal(24) == Decimal(2) + [DigitChar(4)];
  }

  /** Three separator-free labels followed by a tail are recovered from their join. */
  lemma SplitThreeLabels(x2: string, x1: string, x0: string, y2: string, y1: string, y0: string, tail: string, sep: char)
    requires sep !in x2 && sep !in x1 && sep !in x0 && sep !in y2 && sep !in y1 && sep !in y0
    requires x2 + ([sep] + (x1 + ([sep] + (x0 + ([sep] + tail)))))
          == y2 + ([sep] + (y1 + ([sep] + (y0 + ([sep] + tail)))))
    ensures x2 == y2 && x1 == y1 && x0 == y0
  {
    SplitAtSeparator(x2, x1 + ([sep] + (x0 + ([sep] + tail))), y2, y1 + ([sep] + (y0 + ([sep] + tail))), sep);
    SplitAtSeparator(x1, x0 + ([sep] + tail), y1, y0 + ([sep] + tail), sep);
    SplitAtSeparator(x0, tail, y0, tail, sep);
  }
}
