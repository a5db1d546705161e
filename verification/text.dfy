/**
 * Character-sequence helpers shared by the renderer and the parse-tree
 * converter: space-joined collections, selection by key, Rust's `str::replace` for a
 * two-character pattern, `str::trim`, and decimal display of integers.
 */
module Text {

  /** The sum of the lengths of `items`. */
  function TotalLength(items: seq<string>): nat
  {
    if |items| == 0 then 0 else |items[0]| + TotalLength(items[1..])
  }

  /**
   * `items` in order, separated by exactly one space, with no leading or
   * trailing separator; the empty collection is the empty string.
   */
  function Join(items: seq<string>): (r: string)
    ensures |items| == 0 ==> r == ""
    ensures |r| == TotalLength(items) + (if |items| == 0 then 0 else |items| - 1)
  {
    if |items| == 0 then ""
    else if |items| == 1 then items[0]
    else items[0] + " " + Join(items[1..])
  }

  lemma {:induction false} JoinSnoc(xs: seq<string>, y: string)
    ensures Join(xs + [y]) == if |xs| == 0 then y else Join(xs) + " " + y
    decreases |xs|
  {
    if |xs| <= 1 {
      if |xs| == 1 {
        assert xs + [y] == [xs[0], y];
        assert (xs + [y])[1..] == [y];
      }
    } else {
      assert (xs + [y])[1..] == xs[1..] + [y];
      JoinSnoc(xs[1..], y);
    }
  }

  /**
   * Rust's `str::split(' ')`: the pieces between consecutive spaces; the
   * empty string splits into one empty piece.
   */
  function Split(s: string): (r: seq<string>)
    ensures |r| >= 1
  {
    if |s| == 0 then [""]
    else
      var rest := Split(s[1..]);
      if s[0] == ' ' then [""] + rest
      else [[s[0]] + rest[0]] + rest[1..]
  }

  lemma {:induction false} SplitSpaceFree(a: string, b: string)
    requires ' ' !in a
    ensures Split(a + " " + b) == [a] + Split(b)
    ensures Split(a) == [a]
    decreases |a|
  {
    if |a| == 0 {
      assert a + " " + b == [' '] + b;
      assert ([' '] + b)[1..] == b;
    } else {
      assert (a + " " + b)[1..] == a[1..] + " " + b;
      assert ' ' !in a[1..] by {
        forall k | 0 <= k < |a[1..]| ensures a[1..][k] != ' ' {
          assert a[1..][k] == a[k + 1];
        }
      }
      SplitSpaceFree(a[1..], b);
      assert [a[0]] + a[1..] == a;
    }
  }

  /**
   * Splitting a joined collection on spaces gives the collection back,
   * provided no item contains a space itself.
   */
  lemma {:induction false} SplitJoin(items: seq<string>)
    requires |items| > 0
    requires forall k :: 0 <= k < |items| ==> ' ' !in items[k]
    ensures Split(Join(items)) == items
    decreases |items|
  {
    if |items| == 1 {
      SplitSpaceFree(items[0], "");
    } else {
      SplitJoin(items[1..]);
      SplitSpaceFree(items[0], Join(items[1..]));
      assert [items[0]] + items[1..] == items;
    }
  }

  /**
   * Rust's `str::replace` for a two-character pattern `ab` and a
   * one-character replacement: occurrences are found left to right and do
   * not overlap.
   */
  function ReplacePair(s: string, a: char, b: char, rep: char): string
    decreases |s|
  {
    if |s| < 2 then s
    else if s[0] == a && s[1] == b then [rep] + ReplacePair(s[2..], a, b, rep)
    else [s[0]] + ReplacePair(s[1..], a, b, rep)
  }

  /** A character that cannot start the pattern is kept and skipped. */
  lemma ReplacePairCons(c: char, s: string, a: char, b: char, rep: char)
    requires c != a
    ensures ReplacePair([c] + s, a, b, rep) == [c] + ReplacePair(s, a, b, rep)
  {
    if |s| == 0 {
    } else {
      assert ([c] + s)[1..] == s;
    }
  }

  /** Rust's `char::is_whitespace`: the Unicode White_Space property. */
  predicate IsWhitespace(c: char)
  {
    || ('\t' <= c <= '\r')
    || c == ' '
    || c == '\U{85}'
    || c == '\U{A0}'
    || c == '\U{1680}'
    || ('\U{2000}' <= c <= '\U{200A}')
    || c == '\U{2028}'
    || c == '\U{2029}'
    || c == '\U{202F}'
    || c == '\U{205F}'
    || c == '\U{3000}'
  }

  function TrimStart(s: string): (r: string)
    ensures |r| <= |s| && r == s[|s| - |r|..]
    ensures |r| > 0 ==> !IsWhitespace(r[0])
  {
    if |s| > 0 && IsWhitespace(s[0]) then TrimStart(s[1..]) else s
  }

  function TrimEnd(s: string): (r: string)
    ensures |r| <= |s| && r == s[..|r|]
    ensures |r| > 0 ==> !IsWhitespace(r[|r| - 1])
  {
    if |s| > 0 && IsWhitespace(s[|s| - 1]) then TrimEnd(s[..|s| - 1]) else s
  }

  /** Rust's `str::trim`: leading and trailing whitespace removed. */
  function Trim(s: string): (r: string)
    ensures |r| > 0 ==> !IsWhitespace(r[0]) && !IsWhitespace(r[|r| - 1])
  {
    TrimEnd(TrimStart(s))
  }

  /** A string without whitespace at either end is its own trim. */
  lemma TrimTrimmed(s: string)
    requires |s| > 0 ==> !IsWhitespace(s[0]) && !IsWhitespace(s[|s| - 1])
    ensures Trim(s) == s
  {
  }

  function DigitChar(d: nat): (c: char)
    requires d < 10
    ensures '0' <= c <= '9'
  {
    (48 + d) as char
  }

  /** The decimal digits of `n`, as Rust's `Display` writes an unsigned integer. */
  function Decimal(n: nat): (r: string)
    ensures |r| > 0
    ensures forall k :: 0 <= k < |r| ==> '0' <= r[k] <= '9'
    ensures |r| > 1 ==> r[0] != '0'
  {
    if n < 10 then [DigitChar(n)] else Decimal(n / 10) + [DigitChar(n % 10)]
  }

  /** The number a string of decimal digits denotes. */
  function DecimalValue(s: string): nat
    requires forall k :: 0 <= k < |s| ==> '0' <= s[k] <= '9'
  {
    if |s| == 0 then 0
    else 10 * DecimalValue(s[..|s| - 1]) + ((s[|s| - 1] as int) - 48)
  }

  /** Reading back the written digits gives the number. */
  lemma {:induction false} DecimalRoundTrip(n: nat)
    ensures DecimalValue(Decimal(n)) == n
  {
    if n >= 10 {
      var r := Decimal(n);
      assert r[..|r| - 1] == Decimal(n / 10);
      DecimalRoundTrip(n / 10);
    }
  }

  /** The members of `xs` whose key is `s`, in order. */
  function WithKey<T>(xs: seq<T>, key: T -> nat, s: nat): seq<T>
  {
    if |xs| == 0 then [] else (if key(xs[0]) == s then [xs[0]] else []) + WithKey(xs[1..], key, s)
  }

  /** The members of `xs` whose key is not `s`, in order. */
  function WithoutKey<T>(xs: seq<T>, key: T -> nat, s: nat): seq<T>
  {
    if |xs| == 0 then [] else (if key(xs[0]) != s then [xs[0]] else []) + WithoutKey(xs[1..], key, s)
  }

  /** Every member is either selected by `s` or left out by it. */
  lemma {:induction false} WithOrWithout<T>(xs: seq<T>, key: T -> nat, s: nat)
    ensures multiset(WithKey(xs, key, s)) + multiset(WithoutKey(xs, key, s)) == multiset(xs)
    decreases |xs|
  {
    if |xs| != 0 {
      WithOrWithout(xs[1..], key, s);
      assert xs == [xs[0]] + xs[1..];
    }
  }

  /** Leaving out one key does not change the selection of another. */
  lemma {:induction false} WithAfterWithout<T>(xs: seq<T>, key: T -> nat, s: nat, t: nat)
    requires s != t
    ensures WithKey(WithoutKey(xs, key, s), key, t) == WithKey(xs, key, t)
    decreases |xs|
  {
    if |xs| != 0 {
      WithAfterWithout(xs[1..], key, s, t);
      var rest := WithoutKey(xs[1..], key, s);
      var head := if key(xs[0]) == t then [xs[0]] else [];
      assert WithKey(xs, key, t) == head + WithKey(xs[1..], key, t);
      if key(xs[0]) != s {
        var w := [xs[0]] + rest;
        assert WithoutKey(xs, key, s) == w;
        assert w[0] == xs[0] && w[1..] == rest;
        assert WithKey(w, key, t) == head + WithKey(rest, key, t);
      } else {
        assert WithoutKey(xs, key, s) == [] + rest == rest;
        assert head == [];
      }
    }
  }

  /** With keys below three, leaving out keys 0 and 1 selects key 2. */
  lemma {:induction false} WithoutTwice<T>(xs: seq<T>, key: T -> nat)
    requires forall x :: key(x) <= 2
    ensures WithoutKey(WithoutKey(xs, key, 0), key, 1) == WithKey(xs, key, 2)
    decreases |xs|
  {
    if |xs| != 0 {
      WithoutTwice(xs[1..], key);
      var rest := WithoutKey(xs[1..], key, 0);
      var head := if key(xs[0]) == 2 then [xs[0]] else [];
      assert WithKey(xs, key, 2) == head + WithKey(xs[1..], key, 2);
      if key(xs[0]) != 0 {
        var w := [xs[0]] + rest;
        assert WithoutKey(xs, key, 0) == w;
        assert w[0] == xs[0] && w[1..] == rest;
        assert WithoutKey(w, key, 1) == head + WithoutKey(rest, key, 1);
      } else {
        assert WithoutKey(xs, key, 0) == [] + rest == rest;
        assert head == [];
      }
    }
  }

  /** With keys below three, the three selections hold every member exactly as often as it occurs. */
  lemma KeyPartition<T>(xs: seq<T>, key: T -> nat)
    requires forall x :: key(x) <= 2
    ensures multiset(WithKey(xs, key, 0)) + multiset(WithKey(xs, key, 1)) + multiset(WithKey(xs, key, 2))
            == multiset(xs)
  {
    WithOrWithout(xs, key, 0);
    WithOrWithout(WithoutKey(xs, key, 0), key, 1);
    WithAfterWithout(xs, key, 0, 1);
    WithoutTwice(xs, key);
  }
}
