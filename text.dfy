/**
 * String helpers used by the pipelines: ASCII case folding, substring search,
 * joining and splitting on a separator, decimal rendering of counts, and the
 * code-point (lexicographic) order Python uses to sort string group keys.
 */
module Text {

  /** ASCII lower-casing of one character. */
  function LowerChar(c: char): char
  {
    if 'A' <= c <= 'Z' then (c as int + 32) as char else c
  }

  function Lower(s: string): string
  {
    seq(|s|, i requires 0 <= i < |s| => LowerChar(s[i]))
  }

  lemma LowerIdempotent(s: string)
    ensures Lower(Lower(s)) == Lower(s)
  {
  }

  /** `p` occurs in `s` starting at position `i`. */
  ghost predicate OccursAt(s: string, p: string, i: int)
  {
    0 <= i && i + |p| <= |s| && s[i..i + |p|] == p
  }

  /** Substring search, as `p in s` in Python. */
  function Contains(s: string, p: string): bool
    decreases |s|
  {
    p <= s || (|s| > 0 && Contains(s[1..], p))
  }

  /** The search agrees with the positional definition of an occurrence. */
  lemma {:induction false} ContainsIff(s: string, p: string)
    ensures Contains(s, p) <==> exists i :: OccursAt(s, p, i)
    decreases |s|
  {
    if p <= s {
      assert s[0..|p|] == p;
      assert OccursAt(s, p, 0);
    } else if |s| > 0 {
      ContainsIff(s[1..], p);
      if exists i :: OccursAt(s[1..], p, i) {
        var i :| OccursAt(s[1..], p, i);
        assert s[i + 1..i + 1 + |p|] == s[1..][i..i + |p|];
        assert OccursAt(s, p, i + 1);
      }
      if exists i :: OccursAt(s, p, i) {
        var i :| OccursAt(s, p, i);
        if i > 0 {
          assert s[1..][i - 1..i - 1 + |p|] == s[i..i + |p|];
          assert OccursAt(s[1..], p, i - 1);
        }
      }
    }
  }

  /** Nothing longer than s occurs in s. */
  lemma {:induction false} ContainsLonger(s: string, p: string)
    requires |s| < |p|
    ensures !Contains(s, p)
    decreases |s|
  {
    if |s| > 0 {
      ContainsLonger(s[1..], p);
    }
  }

  /** Nothing whose first character is absent from s occurs in s. */
  lemma {:induction false} ContainsAbsentFirst(s: string, p: string)
    requires |p| > 0 && p[0] !in s
    ensures !Contains(s, p)
    decreases |s|
  {
    if |s| > 0 {
      assert s[0] != p[0];
      ContainsAbsentFirst(s[1..], p);
    }
  }

  /**
   * Case-insensitive substring search (pandas `str.contains(p, case=False)`),
   * with ASCII case folding and `p` read literally.
   */
  function ContainsIgnoreCase(s: string, p: string): (r: bool)
    ensures r <==> exists i :: OccursAt(Lower(s), Lower(p), i)
    ensures p == [] ==> r
  {
    ContainsIff(Lower(s), Lower(p));
    Contains(Lower(s), Lower(p))
  }

  /** Folding either argument first changes nothing: the search is case-blind. */
  lemma CaseBlind(s: string, p: string)
    ensures ContainsIgnoreCase(Lower(s), p) == ContainsIgnoreCase(s, p)
    ensures ContainsIgnoreCase(s, Lower(p)) == ContainsIgnoreCase(s, p)
  {
    LowerIdempotent(s);
    LowerIdempotent(p);
  }

  /** `sep.join(xs)` */
  function Join(xs: seq<string>, sep: string): string
  {
    if |xs| == 0 then ""
    else if |xs| == 1 then xs[0]
    else xs[0] + sep + Join(xs[1..], sep)
  }

  /** `s.split(d)`: always at least one piece, `""` gives `[""]`. */
  function Split(s: string, d: char): (r: seq<string>)
    ensures |r| >= 1
  {
    if |s| == 0 then [""]
    else if s[0] == d then [""] + Split(s[1..], d)
    else
      var t := Split(s[1..], d);
      [[s[0]] + t[0]] + t[1..]
  }

  lemma {:induction false} SplitNoSeparator(a: string, rest: string, d: char)
    requires d !in a
    ensures Split(a + rest, d) == [a + Split(rest, d)[0]] + Split(rest, d)[1..]
    decreases |a|
  {
    if |a| > 0 {
      assert (a + rest)[1..] == a[1..] + rest;
      SplitNoSeparator(a[1..], rest, d);
      assert [a[0]] + (a[1..] + Split(rest, d)[0]) == a + Split(rest, d)[0];
    } else {
      assert a + rest == rest;
      assert a + Split(rest, d)[0] == Split(rest, d)[0];
    }
  }

  /** No piece of a split holds the separator. */
  lemma {:induction false} SplitPieces(s: string, d: char)
    ensures forall i :: 0 <= i < |Split(s, d)| ==> d !in Split(s, d)[i]
  {
    if |s| > 0 {
      SplitPieces(s[1..], d);
      if s[0] != d {
        var t := Split(s[1..], d);
        assert d !in t[0];
        assert d !in [s[0]] + t[0];
      }
    }
  }

  /** Splitting what was joined gives the pieces back, if none holds the separator. */
  lemma {:induction false} SplitJoin(xs: seq<string>, d: char)
    requires |xs| >= 1
    requires forall i :: 0 <= i < |xs| ==> d !in xs[i]
    ensures Split(Join(xs, [d]), d) == xs
  {
    if |xs| == 1 {
      SplitNoSeparator(xs[0], "", d);
      assert xs[0] + "" == xs[0];
    } else {
      var rest := Join(xs[1..], [d]);
      SplitJoin(xs[1..], d);
      assert Join(xs, [d]) == xs[0] + ([d] + rest);
      SplitNoSeparator(xs[0], [d] + rest, d);
      assert ([d] + rest)[1..] == rest;
      assert Split([d] + rest, d) == [""] + xs[1..];
      assert xs[0] + "" == xs[0];
    }
  }

  lemma {:induction false} JoinAppend(xs: seq<string>, y: string, sep: string)
    requires |xs| >= 1
    ensures Join(xs + [y], sep) == Join(xs, sep) + sep + y
  {
    if |xs| == 1 {
      assert xs + [y] == [xs[0], y];
    } else {
      assert (xs + [y])[1..] == xs[1..] + [y];
      JoinAppend(xs[1..], y, sep);
    }
  }

  function DigitChar(d: nat): char
    requires d < 10
  {
    ['0', '1', '2', '3', '4', '5', '6', '7', '8', '9'][d]
  }

  /** `str(n)` for a count. */
  function ShowNat(n: nat): (r: string)
    ensures |r| >= 1
    ensures forall i :: 0 <= i < |r| ==> '0' <= r[i] <= '9'
  {
    if n < 10 then [DigitChar(n)] else ShowNat(n / 10) + [DigitChar(n % 10)]
  }

  /** Python's ordering of strings: lexicographic by code point. */
  function StrLess(a: string, b: string): bool
  {
    if |a| == 0 then |b| > 0
    else if |b| == 0 then false
    else if a[0] != b[0] then a[0] < b[0]
    else StrLess(a[1..], b[1..])
  }

  lemma {:induction false} StrLessIrreflexive(a: string)
    ensures !StrLess(a, a)
  {
    if |a| > 0 { StrLessIrreflexive(a[1..]); }
  }

  lemma {:induction false} StrLessTransitive(a: string, b: string, c: string)
    requires StrLess(a, b) && StrLess(b, c)
    ensures StrLess(a, c)
  {
    if |a| > 0 && |b| > 0 && |c| > 0 && a[0] == b[0] && b[0] == c[0] {
      StrLessTransitive(a[1..], b[1..], c[1..]);
    }
  }

  lemma {:induction false} StrLessTotal(a: string, b: string)
    requires a != b
    ensures StrLess(a, b) || StrLess(b, a)
  {
    if |a| > 0 && |b| > 0 && a[0] == b[0] {
      assert a == [a[0]] + a[1..] && b == [b[0]] + b[1..];
      StrLessTotal(a[1..], b[1..]);
    }
  }
}
