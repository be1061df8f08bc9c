/** String helpers modelling the Python `str` operations the core relies on. */
module Strings {

  /** `s.startswith(prefix)`. */
  predicate StartsWith(s: string, prefix: string)
  {
    |prefix| <= |s| && s[..|prefix|] == prefix
  }

  /** `s.endswith(suffix)`. */
  predicate EndsWith(s: string, suffix: string)
  {
    |suffix| <= |s| && s[|s| - |suffix|..] == suffix
  }

  /** `c.lower()` for ASCII letters; every other character is left as it is. */
  function LowerChar(c: char): char
  {
    if 'A' <= c <= 'Z' then (c as int + 32) as char else c
  }

  /** `s.lower()`, character by character. */
  function Lower(s: string): (r: string)
    ensures |r| == |s|
    ensures forall i :: 0 <= i < |s| ==> r[i] == LowerChar(s[i])
  {
    if s == [] then [] else [LowerChar(s[0])] + Lower(s[1..])
  }

  /** A suffix of a suffix is a suffix. */
  lemma EndsWithTransitive(p: string, q: string, s: string)
    requires EndsWith(p, q) && EndsWith(q, s)
    ensures EndsWith(p, s)
  {
    assert p[|p| - |s|..] == q[|q| - |s|..];
  }

  /** A text that ends with `[c] + t` is whatever precedes that ending, then `c`, then `t`. */
  lemma CutBeforeSuffix(p: string, c: char, t: string)
    requires EndsWith(p, [c] + t)
    ensures p == p[..|p| - |t| - 1] + [c] + t
  {
    assert p[|p| - |t| - 1..] == [c] + t;
    assert p == p[..|p| - |t| - 1] + p[|p| - |t| - 1..];
  }

  /** If `x + [c] + f` ends with `[c] + t` and the two tails differ in length, the marker shows up
      inside the longer tail. */
  lemma MarkerInLongerTail(x: string, c: char, f: string, t: string)
    requires EndsWith(x + [c] + f, [c] + t) && |t| != |f|
    ensures |t| < |f| ==> c in f
    ensures |t| > |f| ==> c in t
  {
    var p := x + [c] + f;
    var w := p[|p| - |t| - 1..];
    if |t| < |f| {
      assert w[0] == f[|f| - |t| - 1];
    } else {
      assert w[|t| - |f|] == p[|x|];
      assert ([c] + t)[|t| - |f|] == t[|t| - |f| - 1];
    }
  }

  /** Behind a marker character `c` that occurs in neither, `f` and `t` agree exactly when the text
      ends with the marker followed by `t`. */
  lemma EndsWithMarkedSuffix(x: string, c: char, f: string, t: string)
    requires c !in f && c !in t
    ensures EndsWith(x + [c] + f, [c] + t) <==> f == t
  {
    if EndsWith(x + [c] + f, [c] + t) {
      if |t| != |f| {
        MarkerInLongerTail(x, c, f, t);
      }
      var p := x + [c] + f;
      assert p[|p| - |t| - 1..][1..] == f;
    }
  }

  /** The decimal digit for `d`. */
  function DigitChar(d: nat): (c: char)
    requires d < 10
    ensures '0' <= c <= '9'
  {
    (48 + d) as char
  }

  /** `str(n)` for a non-negative integer: decimal, no leading zeros. */
  function NatToString(n: nat): (r: string)
    ensures |r| >= 1
    ensures (|r| == 1) == (n < 10)
    ensures forall i :: 0 <= i < |r| ==> '0' <= r[i] <= '9'
    ensures r[|r| - 1] == DigitChar(n % 10)
    decreases n
  {
    if n < 10 then [DigitChar(n)] else NatToString(n / 10) + [DigitChar(n % 10)]
  }

  /** `str(i)` for any integer. */
  function IntToString(i: int): (r: string)
    ensures |r| >= 1
    ensures (r[0] == '-') == (i < 0)
    ensures r[0] == '-' || '0' <= r[0] <= '9'
    ensures forall k :: 0 < k < |r| ==> '0' <= r[k] <= '9'
  {
    if i < 0 then "-" + NatToString(-i) else NatToString(i)
  }

  /** Different numbers have different decimal renderings. */
  lemma {:induction false} NatToStringInjective(a: nat, b: nat)
    requires NatToString(a) == NatToString(b)
    ensures a == b
    decreases a
  {
    var sa, sb := NatToString(a), NatToString(b);
    assert DigitChar(a % 10) == DigitChar(b % 10);
    if a >= 10 && b >= 10 {
      assert NatToString(a / 10) == sa[..|sa| - 1];
      assert NatToString(b / 10) == sb[..|sb| - 1];
      NatToStringInjective(a / 10, b / 10);
    }
  }

  /** `str` is injective on integers. */
  lemma IntToStringInjective(a: int, b: int)
    requires IntToString(a) == IntToString(b)
    ensures a == b
  {
    if a < 0 {
      assert IntToString(a)[1..] == NatToString(-a);
      assert IntToString(b)[1..] == NatToString(-b);
      NatToStringInjective(-a, -b);
    } else {
      NatToStringInjective(a, b);
    }
  }

  /** `sep.join(parts)`. */
  function Join(sep: string, parts: seq<string>): string
    decreases |parts|
  {
    if |parts| == 0 then ""
    else if |parts| == 1 then parts[0]
    else parts[0] + sep + Join(sep, parts[1..])
  }

  /** The joined string starts with the first part. */
  lemma JoinStartsWithFirst(sep: string, parts: seq<string>)
    requires |parts| > 0
    ensures StartsWith(Join(sep, parts), parts[0])
  {
  }

  /** At any boundary `i`, the joined string is the join of the parts before `i`, the separator, and
      the join of the parts from `i` on: the parts appear in their order, separated by `sep`. */
  lemma {:induction false} JoinSplitAt(sep: string, parts: seq<string>, i: nat)
    requires 0 < i < |parts|
    ensures Join(sep, parts) == Join(sep, parts[..i]) + sep + Join(sep, parts[i..])
    decreases i
  {
    if i > 1 {
      JoinSplitAt(sep, parts[1..], i - 1);
      assert parts[..i][1..] == parts[1..][..i - 1];
      assert parts[1..][i - 1..] == parts[i..];
      assert |parts[..i]| == i;
    } else {
      assert parts[..1] == [parts[0]];
    }
  }

  /** `s.split(c)` with an explicit one-character separator: every occurrence splits, empty fields are kept. */
  function Split(s: string, c: char): (r: seq<string>)
    ensures |r| >= 1
    decreases |s|
  {
    if |s| == 0 then [""]
    else
      var rest := Split(s[1..], c);
      if s[0] == c then [""] + rest else [[s[0]] + rest[0]] + rest[1..]
  }

  /** Joining the fields with the separator gives back the original string. */
  lemma {:induction false} SplitJoin(s: string, c: char)
    ensures Join([c], Split(s, c)) == s
    decreases |s|
  {
    if |s| > 0 {
      var rest := Split(s[1..], c);
      SplitJoin(s[1..], c);
      if s[0] == c {
        assert Split(s, c) == [""] + rest;
        assert ([""] + rest)[1..] == rest;
      } else {
        if |rest| == 1 {
        } else {
          assert Join([c], rest) == rest[0] + [c] + Join([c], rest[1..]);
          assert Split(s, c)[1..] == rest[1..];
        }
      }
    }
  }

  /** No field contains the separator. */
  lemma {:induction false} SplitFieldsLackSeparator(s: string, c: char, i: nat)
    requires i < |Split(s, c)|
    ensures c !in Split(s, c)[i]
    decreases |s|
  {
    if |s| > 0 {
      var rest := Split(s[1..], c);
      if s[0] == c {
        if i > 0 { SplitFieldsLackSeparator(s[1..], c, i - 1); }
      } else {
        if i == 0 {
          SplitFieldsLackSeparator(s[1..], c, 0);
        } else {
          SplitFieldsLackSeparator(s[1..], c, i);
        }
      }
    }
  }

  /** A leading field free of the separator comes off as the first field. */
  lemma {:induction false} SplitAfterField(p: string, t: string, c: char)
    requires c !in p
    ensures Split(p + [c] + t, c) == [p] + Split(t, c)
    decreases |p|
  {
    if |p| == 0 {
      assert p + [c] + t == [c] + t;
      assert ([c] + t)[1..] == t;
    } else {
      SplitAfterField(p[1..], t, c);
      assert (p + [c] + t)[1..] == p[1..] + [c] + t;
      assert [p[0]] + p[1..] == p;
    }
  }

  /** Every field of a string with no separator at all is the string itself. */
  lemma {:induction false} SplitWithoutSeparator(s: string, c: char)
    requires c !in s
    ensures Split(s, c) == [s]
    decreases |s|
  {
    if |s| > 0 {
      SplitWithoutSeparator(s[1..], c);
      assert [s[0]] + s[1..] == s;
    }
  }
}
