/**
 * The few Python `str` operations the core relies on, with the exact Python
 * semantics: `isspace` (which is also what `\s` matches in a `re` pattern over
 * `str`), `strip()`, `split(c)` for a one-character separator, `sep.join(parts)`,
 * `index(c)` and `str(n)` for a non-negative integer.
 */
module Text {

  /** `c.isspace()`: the characters CPython's Py_UNICODE_ISSPACE accepts. */
  predicate IsSpace(c: char) {
    || c == ' '
    || ('\t' <= c <= '\r')
    || ('\U{1C}' <= c <= '\U{1F}')
    || c == '\U{85}' || c == '\U{A0}' || c == '\U{1680}'
    || ('\U{2000}' <= c <= '\U{200A}')
    || c == '\U{2028}' || c == '\U{2029}' || c == '\U{202F}' || c == '\U{205F}' || c == '\U{3000}'
  }

  /** Every character of `s[lo..hi]` is whitespace. */
  predicate SpaceIn(s: string, lo: nat, hi: nat)
    requires lo <= hi <= |s|
  {
    forall k {:trigger IsSpace(s[k])} :: lo <= k < hi ==> IsSpace(s[k])
  }

  /** No whitespace at either end. */
  predicate IsStripped(s: string) {
    s == [] || (!IsSpace(s[0]) && !IsSpace(s[|s| - 1]))
  }

  /** `s.lstrip()` */
  function StripStart(s: string): (r: string)
    ensures |r| <= |s| && r == s[|s| - |r|..]
    ensures SpaceIn(s, 0, |s| - |r|)
    ensures r == [] || !IsSpace(r[0])
  {
    if s != [] && IsSpace(s[0]) then StripStart(s[1..]) else s
  }

  /** `s.rstrip()` */
  function StripEnd(s: string): (r: string)
    ensures |r| <= |s| && r == s[..|r|]
    ensures SpaceIn(s, |r|, |s|)
    ensures r == [] || !IsSpace(r[|r| - 1])
  {
    if s != [] && IsSpace(s[|s| - 1]) then StripEnd(s[..|s| - 1]) else s
  }

  /** `s.strip()` */
  function Strip(s: string): (r: string)
    ensures IsStripped(r) && |r| <= |s|
  {
    StripEnd(StripStart(s))
  }

  lemma {:induction false} StripStartAt(s: string, i: nat)
    requires i <= |s| && SpaceIn(s, 0, i) && (i == |s| || !IsSpace(s[i]))
    ensures StripStart(s) == s[i..]
    decreases i
  {
    if i > 0 {
      var t := s[1..];
      assert IsSpace(s[0]);
      assert SpaceIn(t, 0, i - 1) by {
        forall k | 0 <= k < i - 1 ensures IsSpace(t[k]) {
          assert t[k] == s[k + 1];
        }
      }
      assert i - 1 == |t| || t[i - 1] == s[i];
      StripStartAt(t, i - 1);
      assert t[i - 1..] == s[i..];
    } else {
      assert s[0..] == s;
    }
  }

  lemma {:induction false} StripEndAt(s: string, j: nat)
    requires j <= |s| && SpaceIn(s, j, |s|) && (j == 0 || !IsSpace(s[j - 1]))
    ensures StripEnd(s) == s[..j]
    decreases |s| - j
  {
    if j < |s| {
      var t := s[..|s| - 1];
      assert IsSpace(s[|s| - 1]);
      assert SpaceIn(t, j, |t|) by {
        forall k | j <= k < |t| ensures IsSpace(t[k]) {
          assert t[k] == s[k];
        }
      }
      assert j == 0 || t[j - 1] == s[j - 1];
      StripEndAt(t, j);
      assert t[..j] == s[..j];
    } else {
      assert s[..|s|] == s;
    }
  }

  /** Whitespace in `s[lo..hi]` is whitespace in the same place of `s[i..]`. */
  lemma SpaceInDrop(s: string, i: nat, lo: nat, hi: nat)
    requires i <= lo <= hi <= |s| && SpaceIn(s, lo, hi)
    ensures SpaceIn(s[i..], lo - i, hi - i)
  {
    forall k | lo - i <= k < hi - i ensures IsSpace(s[i..][k]) {
      assert s[i..][k] == s[i + k];
    }
  }

  lemma DropThenTake(s: string, i: nat, j: nat)
    requires i <= j <= |s|
    ensures s[i..][..j - i] == s[i..j]
  {
  }

  /**
   * `strip()` is the one stripped infix of `s` that has only whitespace on
   * both sides of it.
   */
  lemma {:induction false} StripIsUnique(s: string, i: nat, j: nat)
    requires i <= j <= |s|
    requires SpaceIn(s, 0, i) && SpaceIn(s, j, |s|) && IsStripped(s[i..j])
    ensures Strip(s) == s[i..j]
  {
    if i < j {
      var inner := s[i..j];
      assert inner[0] == s[i] && inner[|inner| - 1] == s[j - 1];
      StripStartAt(s, i);
      var a := s[i..];
      SpaceInDrop(s, i, j, |s|);
      assert a[j - i - 1] == s[j - 1];
      StripEndAt(a, j - i);
      DropThenTake(s, i, j);
      assert Strip(s) == StripEnd(StripStart(s)) == StripEnd(a);
    } else {
      assert SpaceIn(s, 0, |s|) by {
        forall k | 0 <= k < |s| ensures IsSpace(s[k]) {
          if k >= j {
            assert IsSpace(s[k]);
          }
        }
      }
      StripStartAt(s, |s|);
      assert StripStart(s) == [];
    }
  }

  /** Stripping twice is stripping once. */
  lemma StripIdempotent(s: string)
    ensures Strip(Strip(s)) == Strip(s)
  {
    var r := Strip(s);
    assert r[0..|r|] == r;
    StripIsUnique(r, 0, |r|);
  }

  /** `sep.join(parts)` */
  function Join(sep: string, parts: seq<string>): string
  {
    if |parts| == 0 then ""
    else if |parts| == 1 then parts[0]
    else parts[0] + sep + Join(sep, parts[1..])
  }

  /** `s.split(c)`: the maximal pieces between the occurrences of `c`. */
  function Split(s: string, c: char): (parts: seq<string>)
    ensures |parts| >= 1
    ensures forall k :: 0 <= k < |parts| ==> c !in parts[k]
  {
    if s == [] then [""]
    else
      var rest := Split(s[1..], c);
      if s[0] == c then [""] + rest else [[s[0]] + rest[0]] + rest[1..]
  }

  /** Joining the pieces back with the separator gives the original text. */
  lemma {:induction false} JoinSplit(s: string, c: char)
    ensures Join([c], Split(s, c)) == s
  {
    if s != [] {
      var rest := Split(s[1..], c);
      JoinSplit(s[1..], c);
      if s[0] == c {
        assert ([""] + rest)[1..] == rest;
      } else if |rest| > 1 {
        assert ([[s[0]] + rest[0]] + rest[1..])[1..] == rest[1..];
      }
    }
  }

  lemma {:induction false} SplitAfterPiece(p: string, t: string, c: char)
    requires c !in p
    ensures Split(p + t, c) == [p + Split(t, c)[0]] + Split(t, c)[1..]
  {
    if p != [] {
      SplitAfterPiece(p[1..], t, c);
      assert (p + t)[1..] == p[1..] + t;
      assert [p[0]] + (p[1..] + Split(t, c)[0]) == p + Split(t, c)[0];
    } else {
      assert p + t == t;
      assert p + Split(t, c)[0] == Split(t, c)[0];
      assert Split(t, c) == [Split(t, c)[0]] + Split(t, c)[1..];
    }
  }

  /**
   * Splitting a join of separator-free pieces gives the pieces back, so
   * `Split` is the inverse of `Join`.
   */
  lemma {:induction false} SplitJoin(parts: seq<string>, c: char)
    requires |parts| >= 1
    requires forall k :: 0 <= k < |parts| ==> c !in parts[k]
    ensures Split(Join([c], parts), c) == parts
  {
    if |parts| == 1 {
      SplitAfterPiece(parts[0], "", c);
      assert parts[0] + "" == parts[0];
    } else {
      var rest := parts[1..];
      var j := Join([c], rest);
      SplitJoin(rest, c);
      SplitAfterPiece(parts[0], [c] + j, c);
      assert ([c] + j)[1..] == j;
      assert Split([c] + j, c) == [""] + Split(j, c);
      assert parts[0] + "" == parts[0];
      assert parts[0] + [c] + j == parts[0] + ([c] + j);
      assert parts == [parts[0]] + rest;
    }
  }

  /** A text that starts with the separator splits into an empty piece and the rest's pieces. */
  lemma SplitConsSeparator(s: string, c: char)
    ensures Split([c] + s, c) == [""] + Split(s, c)
  {
    assert ([c] + s)[1..] == s;
  }

  /** Any other first character joins the rest's first piece. */
  lemma SplitConsOther(x: char, s: string, c: char)
    requires x != c
    ensures Split([x] + s, c) == [[x] + Split(s, c)[0]] + Split(s, c)[1..]
  {
    assert ([x] + s)[1..] == s;
  }

  /** Merging `x` into the first of `l + r` is merging it into the first of `l`, then appending `r`. */
  lemma MergeFirstAppend(x: char, l: seq<string>, r: seq<string>)
    requires |l| >= 1
    ensures [[x] + (l + r)[0]] + (l + r)[1..] == ([[x] + l[0]] + l[1..]) + r
  {
    assert (l + r)[0] == l[0];
    assert (l + r)[1..] == l[1..] + r;
  }

  /** The step of `SplitAround`: one more character in front keeps the split around the separator. */
  lemma SplitAroundCons(x: char, rest: string, b: string, c: char)
    requires Split(rest + [c] + b, c) == Split(rest, c) + Split(b, c)
    ensures Split([x] + rest + [c] + b, c) == Split([x] + rest, c) + Split(b, c)
  {
    var u := rest + [c] + b;
    assert [x] + rest + [c] + b == [x] + u;
    if x == c {
      SplitConsSeparator(u, c);
      SplitConsSeparator(rest, c);
      assert [""] + (Split(rest, c) + Split(b, c)) == ([""] + Split(rest, c)) + Split(b, c);
    } else {
      SplitConsOther(x, u, c);
      SplitConsOther(x, rest, c);
      MergeFirstAppend(x, Split(rest, c), Split(b, c));
    }
  }

  /** Splitting at one occurrence of the separator splits each side on its own. */
  lemma {:induction false} SplitAround(a: string, b: string, c: char)
    ensures Split(a + [c] + b, c) == Split(a, c) + Split(b, c)
  {
    if a == [] {
      assert a + [c] + b == [c] + b;
      SplitConsSeparator(b, c);
    } else {
      SplitAround(a[1..], b, c);
      SplitAroundCons(a[0], a[1..], b, c);
      assert [a[0]] + a[1..] == a;
    }
  }

  /** The summed length of the parts. */
  function TotalLength(parts: seq<string>): nat {
    if parts == [] then 0 else |parts[0]| + TotalLength(parts[1..])
  }

  /** A join is as long as its parts plus one separator between each two. */
  lemma {:induction false} JoinLength(sep: string, parts: seq<string>)
    requires |parts| >= 1
    ensures |Join(sep, parts)| == TotalLength(parts) + (|parts| - 1) * |sep|
  {
    if |parts| > 1 {
      JoinLength(sep, parts[1..]);
    }
  }

  /** Two equal concatenations with equally long first halves have equal halves. */
  lemma ConcatCancel(a: string, b: string, c: string, d: string)
    requires a + b == c + d && |a| == |c|
    ensures a == c && b == d
  {
    assert a == (a + b)[..|a|] && c == (c + d)[..|c|];
    assert b == (a + b)[|a|..] && d == (c + d)[|c|..];
  }

  /** Equal texts with equal head and tail have equal middles. */
  lemma MiddleCancel(head: string, x: string, y: string, tail: string)
    requires head + x + tail == head + y + tail
    ensures x == y
  {
    assert head + x + tail == head + (x + tail);
    assert head + y + tail == head + (y + tail);
    ConcatCancel(head, x + tail, head, y + tail);
    ConcatCancel(x, tail, y, tail);
  }

  /** Regrouping a five-part concatenation around its second part. */
  lemma Regroup(a: string, b: string, c: string, d: string, e: string)
    ensures a + b + c + d + e == a + b + (c + d + e)
  {
  }

  /** `s.rfind(c)`: the position of the last `c`, or -1 when there is none. */
  function LastIndexOf(s: string, c: char): (i: int)
    ensures -1 <= i < |s|
    ensures i >= 0 ==> s[i] == c
    ensures forall k :: i < k < |s| ==> s[k] != c
  {
    if s == [] then -1
    else if s[|s| - 1] == c then |s| - 1
    else LastIndexOf(s[..|s| - 1], c)
  }

  /** A character that is not in either part is not in their join. */
  lemma {:induction false} JoinAvoids(sep: string, parts: seq<string>, c: char)
    requires c !in sep
    requires forall k :: 0 <= k < |parts| ==> c !in parts[k]
    ensures c !in Join(sep, parts)
  {
    if |parts| > 1 {
      JoinAvoids(sep, parts[1..], c);
    }
  }

  /** `s.index(c)`: the position of the first `c`. */
  function IndexOf(s: string, c: char): (i: nat)
    requires c in s
    ensures i < |s| && s[i] == c && c !in s[..i]
  {
    if s[0] == c then 0 else 1 + IndexOf(s[1..], c)
  }

  function DigitChar(d: nat): char
    requires d < 10
  {
    (('0' as int) + d) as char
  }

  /** `str(n)` for a non-negative integer: its decimal digits. */
  function NatToString(n: nat): (r: string)
    ensures |r| >= 1
    ensures forall k :: 0 <= k < |r| ==> '0' <= r[k] <= '9'
    ensures r[0] == '0' <==> n == 0
  {
    if n < 10 then [DigitChar(n)] else NatToString(n / 10) + [DigitChar(n % 10)]
  }

  /** The value of a string of decimal digits. */
  function DecimalValue(s: string): nat
    requires forall k :: 0 <= k < |s| ==> '0' <= s[k] <= '9'
  {
    if s == [] then 0 else 10 * DecimalValue(s[..|s| - 1]) + (s[|s| - 1] as int - '0' as int)
  }

  /** Reading the digits of `str(n)` back gives `n`. */
  lemma {:induction false} DecimalRoundTrip(n: nat)
    ensures DecimalValue(NatToString(n)) == n
  {
    if n >= 10 {
      var s := NatToString(n / 10);
      DecimalRoundTrip(n / 10);
      assert (s + [DigitChar(n % 10)])[..|s|] == s;
    }
  }

  /** Digits that do not start with '0' are worth at least one. */
  lemma {:induction false} LeadingDigitPositive(s: string)
    requires |s| >= 1 && s[0] != '0'
    requires forall k :: 0 <= k < |s| ==> '0' <= s[k] <= '9'
    ensures DecimalValue(s) >= 1
  {
    if |s| > 1 {
      LeadingDigitPositive(s[..|s| - 1]);
    }
  }

  /**
   * `str(n)` is the only way to write `n` in digits without a leading zero:
   * any such digit string is `NatToString` of its value.
   */
  lemma {:induction false} NatToStringCanonical(s: string)
    requires |s| >= 1 && (|s| == 1 || s[0] != '0')
    requires forall k :: 0 <= k < |s| ==> '0' <= s[k] <= '9'
    ensures NatToString(DecimalValue(s)) == s
  {
    var t := s[..|s| - 1];
    var d := s[|s| - 1] as int - '0' as int;
    if |s| == 1 {
      assert DecimalValue(t) == 0;
      assert NatToString(d) == [DigitChar(d)];
    } else {
      NatToStringCanonical(t);
      LeadingDigitPositive(t);
      var n := DecimalValue(s);
      assert n == 10 * DecimalValue(t) + d;
      assert n / 10 == DecimalValue(t) && n % 10 == d;
      assert NatToString(n) == NatToString(n / 10) + [DigitChar(n % 10)];
      assert s == t + [s[|s| - 1]];
    }
  }

  /** Different numbers have different decimal strings. */
  lemma NatToStringInjective(m: nat, n: nat)
    requires NatToString(m) == NatToString(n)
    ensures m == n
  {
    DecimalRoundTrip(m);
    DecimalRoundTrip(n);
  }
}
