/**
 The JavaScript built-ins the support-chat code leans on, restated over Dafny
 sequences: `toLowerCase`/`toUpperCase` (ASCII letters only), `includes`,
 `split` on one separator character, `slice` on strings and arrays, `filter`,
 and the stable descending `sort` used for every ranking in the program.
 */
module JsBuiltins {

  /** `undefined`/`null` versus a present value. */
  datatype Option<+T> = None | Some(value: T)

  // ---------------------------------------------------------------------------
  // Character classes (ASCII case mapping; JavaScript's `\s`, `\d`, `\w`)
  // ---------------------------------------------------------------------------

  predicate IsUpperAscii(c: char) { 'A' <= c <= 'Z' }

  predicate IsLowerAscii(c: char) { 'a' <= c <= 'z' }

  predicate IsAsciiLetter(c: char) { IsUpperAscii(c) || IsLowerAscii(c) }

  /** `\d` in a JavaScript regular expression without the `u` flag. */
  predicate IsDigit(c: char) { '0' <= c <= '9' }

  /** `\w`: letters, digits and underscore, ASCII only. */
  predicate IsWordChar(c: char) { IsAsciiLetter(c) || IsDigit(c) || c == '_' }

  /** `\s`: the ECMAScript WhiteSpace and LineTerminator code points. */
  predicate IsWhitespace(c: char)
  {
    var n := c as int;
    n == 0x09 || n == 0x0A || n == 0x0B || n == 0x0C || n == 0x0D || n == 0x20
    || n == 0xA0 || n == 0x1680 || (0x2000 <= n <= 0x200A)
    || n == 0x2028 || n == 0x2029 || n == 0x202F || n == 0x205F
    || n == 0x3000 || n == 0xFEFF
  }

  function LowerChar(c: char): (d: char)
    ensures !IsUpperAscii(d)
    ensures IsAsciiLetter(d) <==> IsAsciiLetter(c)
    ensures !IsAsciiLetter(c) ==> d == c
  {
    if IsUpperAscii(c) then (c as int + 32) as char else c
  }

  function UpperChar(c: char): (d: char)
    ensures !IsLowerAscii(d)
    ensures IsAsciiLetter(d) <==> IsAsciiLetter(c)
    ensures !IsAsciiLetter(c) ==> d == c
  {
    if IsLowerAscii(c) then (c as int - 32) as char else c
  }

  /** `String.prototype.toLowerCase`, ASCII letters only. */
  function ToLower(s: string): (r: string)
    ensures |r| == |s|
    ensures forall i :: 0 <= i < |s| ==> r[i] == LowerChar(s[i])
  {
    seq(|s|, i requires 0 <= i < |s| => LowerChar(s[i]))
  }

  /** `String.prototype.toUpperCase`, ASCII letters only. */
  function ToUpper(s: string): (r: string)
    ensures |r| == |s|
    ensures forall i :: 0 <= i < |s| ==> r[i] == UpperChar(s[i])
  {
    seq(|s|, i requires 0 <= i < |s| => UpperChar(s[i]))
  }

  /** Number of occurrences of `c` in `s` (the length of `s.match(/c/g) || []`). */
  function CountChar(s: string, c: char): (n: nat)
    ensures n <= |s|
    ensures n == 0 <==> c !in s
  {
    if |s| == 0 then 0 else (if s[0] == c then 1 else 0) + CountChar(s[1..], c)
  }

  // ---------------------------------------------------------------------------
  // String.prototype.includes
  // ---------------------------------------------------------------------------

  /** `k` occurs in `s` starting at index `i`. */
  ghost predicate OccursAt(s: string, k: string, i: nat)
  {
    i + |k| <= |s| && s[i..i + |k|] == k
  }

  /** `s.includes(k)`, computed by trying every start position in turn. */
  predicate Contains(s: string, k: string)
    decreases |s|
  {
    (|k| <= |s| && s[..|k|] == k) || (|s| > 0 && Contains(s[1..], k))
  }

  /** The scanning definition agrees with "occurs at some index". */
  lemma {:induction false} ContainsIff(s: string, k: string)
    ensures Contains(s, k) <==> exists i: nat :: OccursAt(s, k, i)
    decreases |s|
  {
    if Contains(s, k) {
      if |k| <= |s| && s[..|k|] == k {
        assert OccursAt(s, k, 0);
      } else {
        ContainsIff(s[1..], k);
        var i: nat :| OccursAt(s[1..], k, i);
        var inner, outer := s[1..][i..i + |k|], s[i + 1..i + 1 + |k|];
        assert forall m :: 0 <= m < |k| ==> inner[m] == outer[m];
        assert OccursAt(s, k, i + 1);
      }
    }
    if exists i: nat :: OccursAt(s, k, i) {
      var i: nat :| OccursAt(s, k, i);
      if i == 0 {
        assert s[..|k|] == s[0..|k|];
      } else {
        var inner, outer := s[1..][i - 1..i - 1 + |k|], s[i..i + |k|];
        assert forall m :: 0 <= m < |k| ==> inner[m] == outer[m];
        assert OccursAt(s[1..], k, i - 1);
        ContainsIff(s[1..], k);
      }
    }
  }

  /** A witness index is enough to establish containment. */
  lemma ContainsAt(s: string, k: string, i: nat)
    requires OccursAt(s, k, i)
    ensures Contains(s, k)
  {
    ContainsIff(s, k);
  }

  // ---------------------------------------------------------------------------
  // String.prototype.split with a one-character separator, and its inverse
  // ---------------------------------------------------------------------------

  /**
   `s.split(sep)`: the maximal separator-free pieces, in order. The empty
   string splits into one empty piece and adjacent separators produce empty
   pieces, as in JavaScript.
   */
  function Split(s: string, sep: char): (parts: seq<string>)
    ensures |parts| >= 1
    ensures forall i :: 0 <= i < |parts| ==> sep !in parts[i]
    ensures forall i, c :: 0 <= i < |parts| && c in parts[i] ==> c in s
    decreases |s|
  {
    if |s| == 0 then [""]
    else
      var rest := Split(s[1..], sep);
      assert forall c :: c in s[1..] ==> c in s;
      if s[0] == sep then [""] + rest
      else [[s[0]] + rest[0]] + rest[1..]
  }

  /** `parts.join(sep)`. */
  function Join(parts: seq<string>, sep: char): string
    requires |parts| >= 1
  {
    if |parts| == 1 then parts[0] else parts[0] + [sep] + Join(parts[1..], sep)
  }

  /** Joining the pieces back with the separator gives the original string. */
  lemma {:induction false} JoinSplit(s: string, sep: char)
    ensures Join(Split(s, sep), sep) == s
    decreases |s|
  {
    if |s| > 0 {
      var rest := Split(s[1..], sep);
      JoinSplit(s[1..], sep);
      if s[0] == sep {
        assert Split(s, sep)[1..] == rest;
      } else {
        var parts := Split(s, sep);
        if |rest| == 1 {
          assert parts == [[s[0]] + rest[0]];
        } else {
          assert parts[1..] == rest[1..];
          assert Join(rest, sep) == rest[0] + [sep] + Join(rest[1..], sep);
        }
      }
    }
  }

  /** Splitting a join of separator-free pieces gives back the pieces. */
  lemma {:induction false} SplitJoin(parts: seq<string>, sep: char)
    requires |parts| >= 1
    requires forall i :: 0 <= i < |parts| ==> sep !in parts[i]
    ensures Split(Join(parts, sep), sep) == parts
    decreases |parts|, |parts[0]|
  {
    var s := Join(parts, sep);
    if |parts[0]| == 0 {
      if |parts| > 1 {
        assert s == [sep] + Join(parts[1..], sep);
        assert s[1..] == Join(parts[1..], sep);
        SplitJoin(parts[1..], sep);
        assert parts == [""] + parts[1..];
      }
    } else {
      var tail := [parts[0][1..]] + parts[1..];
      assert tail[1..] == parts[1..];
      assert Join(tail, sep) == s[1..];
      SplitJoin(tail, sep);
      assert s[0] == parts[0][0];
      assert [parts[0][0]] + parts[0][1..] == parts[0];
      assert parts == [parts[0]] + tail[1..];
    }
  }

  /** A string of separators only splits into one more empty piece than it has characters. */
  lemma {:induction false} SplitAllSeparators(s: string, sep: char)
    requires forall i :: 0 <= i < |s| ==> s[i] == sep
    ensures |Split(s, sep)| == |s| + 1
    ensures forall i :: 0 <= i < |Split(s, sep)| ==> Split(s, sep)[i] == ""
    decreases |s|
  {
    if |s| > 0 {
      SplitAllSeparators(s[1..], sep);
    }
  }

  // ---------------------------------------------------------------------------
  // UTF-16: what `length` and string `slice` count
  // ---------------------------------------------------------------------------

  /** One UTF-16 code unit; a JavaScript string is a sequence of these. */
  newtype CodeUnit = n: int | 0 <= n < 0x1_0000

  /** A character outside the Basic Multilingual Plane, stored as a surrogate pair. */
  predicate IsAstral(c: char) { c as int >= 0x1_0000 }

  /** The code units of one character. */
  function EncodeChar(c: char): (units: seq<CodeUnit>)
    ensures |units| == if IsAstral(c) then 2 else 1
    ensures !IsAstral(c) ==> units == [c as int as CodeUnit]
  {
    var n := c as int;
    if n < 0x1_0000 then [n as CodeUnit]
    else [(0xD800 + (n - 0x1_0000) / 0x400) as CodeUnit, (0xDC00 + (n - 0x1_0000) % 0x400) as CodeUnit]
  }

  /** The UTF-16 encoding of a text: the string JavaScript works on. */
  function Utf16(s: string): (units: seq<CodeUnit>)
    ensures |s| <= |units| <= 2 * |s|
  {
    if |s| == 0 then [] else EncodeChar(s[0]) + Utf16(s[1..])
  }

  /** `s.length`: the number of UTF-16 code units, two for each astral character. */
  function JsLength(s: string): nat
  {
    |Utf16(s)|
  }

  /** Encoding works character by character. */
  lemma {:induction false} Utf16Append(a: string, b: string)
    ensures Utf16(a + b) == Utf16(a) + Utf16(b)
  {
    if |a| > 0 {
      assert (a + b)[0] == a[0] && (a + b)[1..] == a[1..] + b;
      Utf16Append(a[1..], b);
    } else {
      assert a + b == b;
    }
  }

  /**
   Without astral characters the encoding is the characters themselves, one
   code unit each, so `length` is the character count.
   */
  lemma {:induction false} Utf16OfBmpText(s: string)
    requires forall i :: 0 <= i < |s| ==> !IsAstral(s[i])
    ensures |Utf16(s)| == |s|
    ensures forall i :: 0 <= i < |s| ==> Utf16(s)[i] as int == s[i] as int
  {
    if |s| > 0 {
      Utf16OfBmpText(s[1..]);
      assert forall i :: 1 <= i < |s| ==> s[1..][i - 1] == s[i];
    }
  }

  /** Without astral characters, `length` is the character count. */
  lemma {:induction false} BmpLength(s: string)
    requires forall i :: 0 <= i < |s| ==> !IsAstral(s[i])
    ensures JsLength(s) == |s|
  {
    if |s| > 0 {
      assert forall i :: 0 <= i < |s[1..]| ==> s[1..][i] == s[i + 1];
      BmpLength(s[1..]);
    }
  }

  /** Without astral characters, the first `k` code units encode the first `k` characters. */
  lemma BmpPrefix(s: string, k: nat)
    requires forall i :: 0 <= i < |s| ==> !IsAstral(s[i])
    requires k <= |s|
    ensures k <= JsLength(s) && Utf16(s)[..k] == Utf16(s[..k])
  {
    var front, back := s[..k], s[k..];
    assert s == front + back;
    Utf16Append(front, back);
    forall i | 0 <= i < |front|
      ensures !IsAstral(front[i])
    {
      assert front[i] == s[i];
    }
    BmpLength(front);
    assert |Utf16(front)| == k;
    assert Utf16(s) == Utf16(front) + Utf16(back);
    assert (Utf16(front) + Utf16(back))[..k] == Utf16(front);
  }

  /** An astral character makes `length` exceed the character count. */
  lemma {:induction false} AstralLengthensText(s: string, k: nat)
    requires k < |s| && IsAstral(s[k])
    ensures JsLength(s) > |s|
  {
    if k > 0 {
      AstralLengthensText(s[1..], k - 1);
    }
  }

  // ---------------------------------------------------------------------------
  // Array.prototype / String.prototype slice, filter, sort
  // ---------------------------------------------------------------------------

  /**
   `s.slice(0, end)`: a negative `end` counts back from the end of `s`, an
   `end` past the end is clamped.
   */
  function SlicePrefix<T>(s: seq<T>, end: int): (r: seq<T>)
    ensures r <= s
    ensures 0 <= end <= |s| ==> |r| == end
    ensures end > |s| ==> r == s
    ensures end < 0 ==> |r| == if |s| + end < 0 then 0 else |s| + end
  {
    if end < 0 then (if |s| + end < 0 then [] else s[..|s| + end])
    else if end < |s| then s[..end]
    else s
  }

  /**
   `s.slice(-count)`: the last `count` elements, or all of `s` when it is
   shorter than that. Since `-0` is `0`, a count of zero keeps everything.
   */
  function SliceLast<T>(s: seq<T>, count: nat): (r: seq<T>)
    ensures count == 0 ==> r == s
    ensures count > 0 ==> |r| == if |s| < count then |s| else count
    ensures s == s[..|s| - |r|] + r
  {
    if count == 0 || |s| < count then s else s[|s| - count..]
  }

  /** `xs.filter(keep)`. */
  function Filter<T>(xs: seq<T>, keep: T -> bool): (r: seq<T>)
    ensures |r| <= |xs|
    ensures forall i :: 0 <= i < |r| ==> keep(r[i]) && r[i] in xs
    ensures forall x :: x in xs && keep(x) ==> x in r
    ensures multiset(r) <= multiset(xs)
  {
    if |xs| == 0 then []
    else
      var rest := Filter(xs[1..], keep);
      assert xs == [xs[0]] + xs[1..];
      FilterStep(xs[0], xs[1..], keep, rest);
      if keep(xs[0]) then [xs[0]] + rest else rest
  }

  /** The facts `Filter` promises carry over from the tail to the whole sequence. */
  lemma FilterStep<T>(x: T, tail: seq<T>, keep: T -> bool, rest: seq<T>)
    requires |rest| <= |tail|
    requires forall i :: 0 <= i < |rest| ==> keep(rest[i]) && rest[i] in tail
    requires forall y :: y in tail && keep(y) ==> y in rest
    requires multiset(rest) <= multiset(tail)
    ensures var r := if keep(x) then [x] + rest else rest;
      |r| <= |[x] + tail|
      && (forall i :: 0 <= i < |r| ==> keep(r[i]) && r[i] in [x] + tail)
      && (forall y :: y in [x] + tail && keep(y) ==> y in r)
      && multiset(r) <= multiset([x] + tail)
  {
  }

  /** Filtering with a predicate every element satisfies keeps everything. */
  lemma {:induction false} FilterAll<T>(xs: seq<T>, keep: T -> bool)
    requires forall i :: 0 <= i < |xs| ==> keep(xs[i])
    ensures Filter(xs, keep) == xs
  {
    if |xs| > 0 {
      FilterAll(xs[1..], keep);
      assert xs == [xs[0]] + xs[1..];
    }
  }

  /** A filter keeps nothing exactly when no element passes it, and everything when all do. */
  lemma FilterNoneOrAll<T>(xs: seq<T>, keep: T -> bool)
    ensures |Filter(xs, keep)| == 0 <==> forall i :: 0 <= i < |xs| ==> !keep(xs[i])
    ensures (forall i :: 0 <= i < |xs| ==> keep(xs[i])) ==> Filter(xs, keep) == xs
  {
    if exists i :: 0 <= i < |xs| && keep(xs[i]) {
      var i :| 0 <= i < |xs| && keep(xs[i]);
      assert xs[i] in xs;
    }
    if |Filter(xs, keep)| > 0 {
      assert Filter(xs, keep)[0] in xs;
    }
    if forall i :: 0 <= i < |xs| ==> keep(xs[i]) {
      FilterAll(xs, keep);
    }
  }

  /** A filter with a weaker condition keeps at least as many elements. */
  lemma {:induction false} FilterNarrower<T>(xs: seq<T>, strict: T -> bool, loose: T -> bool)
    requires forall i :: 0 <= i < |xs| && strict(xs[i]) ==> loose(xs[i])
    ensures |Filter(xs, strict)| <= |Filter(xs, loose)|
  {
    if |xs| > 0 {
      FilterNarrower(xs[1..], strict, loose);
    }
  }

  /** `key` never increases along `xs`. */
  ghost predicate Descending<T>(xs: seq<T>, key: T -> real)
  {
    forall i, j :: 0 <= i < j < |xs| ==> key(xs[i]) >= key(xs[j])
  }

  /**
   Places `x` before the first element whose key is not larger, so that `x`
   precedes its equals.
   */
  function InsertDescending<T>(x: T, xs: seq<T>, key: T -> real): (r: seq<T>)
    ensures |r| == |xs| + 1
    ensures multiset(r) == multiset(xs) + multiset{x}
    ensures forall y :: y in r ==> y == x || y in xs
  {
    if |xs| == 0 then [x]
    else if key(x) >= key(xs[0]) then [x] + xs
    else
      var rest := InsertDescending(x, xs[1..], key);
      assert xs == [xs[0]] + xs[1..];
      [xs[0]] + rest
  }

  /** Inserting into a descending ranking keeps it descending. */
  lemma {:induction false} InsertKeepsDescending<T>(x: T, xs: seq<T>, key: T -> real)
    requires Descending(xs, key)
    ensures Descending(InsertDescending(x, xs, key), key)
  {
    if |xs| > 0 && key(x) < key(xs[0]) {
      InsertKeepsDescending(x, xs[1..], key);
      var rest := InsertDescending(x, xs[1..], key);
      forall j | 0 <= j < |rest|
        ensures key(xs[0]) >= key(rest[j])
      {
        assert rest[j] in rest;
      }
    }
  }

  /**
   `xs.sort((a, b) => key(b) - key(a))`: a stable sort into non-increasing
   key order.
   */
  function SortDescending<T>(xs: seq<T>, key: T -> real): (r: seq<T>)
    ensures |r| == |xs|
    ensures multiset(r) == multiset(xs)
    ensures Descending(r, key)
  {
    if |xs| == 0 then []
    else
      assert xs == [xs[0]] + xs[1..];
      InsertKeepsDescending(xs[0], SortDescending(xs[1..], key), key);
      InsertDescending(xs[0], SortDescending(xs[1..], key), key)
  }

  /** Sorting neither adds nor drops elements. */
  lemma SortKeepsElements<T>(xs: seq<T>, key: T -> real)
    ensures forall i :: 0 <= i < |xs| ==> xs[i] in SortDescending(xs, key)
    ensures forall i :: 0 <= i < |SortDescending(xs, key)| ==> SortDescending(xs, key)[i] in xs
  {
    var r := SortDescending(xs, key);
    forall i | 0 <= i < |xs| ensures xs[i] in r {
      assert xs[i] in multiset(xs);
    }
    forall i | 0 <= i < |r| ensures r[i] in xs {
      assert r[i] in multiset(r);
    }
  }

  /** Filtering `[x] + xs` decides `x` first and then filters `xs`. */
  lemma FilterCons<T>(x: T, xs: seq<T>, keep: T -> bool)
    ensures Filter([x] + xs, keep) == (if keep(x) then [x] else []) + Filter(xs, keep)
  {
    assert ([x] + xs)[0] == x && ([x] + xs)[1..] == xs;
  }

  /** The elements whose key is exactly `v`. */
  function KeyIs<T>(key: T -> real, v: real): T -> bool
  {
    (x: T) => key(x) == v
  }

  /**
   Insertion puts `x` in front of the elements with its key: among the
   elements with any one key, `x` comes first and the others keep their order.
   */
  lemma {:induction false} InsertStable<T>(x: T, xs: seq<T>, key: T -> real, v: real)
    ensures Filter(InsertDescending(x, xs, key), KeyIs(key, v))
      == (if key(x) == v then [x] else []) + Filter(xs, KeyIs(key, v))
  {
    if |xs| == 0 || key(x) >= key(xs[0]) {
      assert InsertDescending(x, xs, key) == [x] + xs;
      FilterCons(x, xs, KeyIs(key, v));
    } else {
      var head, tail := xs[0], xs[1..];
      assert xs == [head] + tail;
      var rest := InsertDescending(x, tail, key);
      assert InsertDescending(x, xs, key) == [head] + rest;
      InsertStable(x, tail, key, v);
      PassOverHigherKey(x, head, tail, rest, key, v);
    }
  }

  /** The step where `x` moves past an element with a strictly higher key. */
  lemma PassOverHigherKey<T>(x: T, head: T, tail: seq<T>, rest: seq<T>, key: T -> real, v: real)
    requires key(x) < key(head)
    requires Filter(rest, KeyIs(key, v)) == (if key(x) == v then [x] else []) + Filter(tail, KeyIs(key, v))
    ensures Filter([head] + rest, KeyIs(key, v))
      == (if key(x) == v then [x] else []) + Filter([head] + tail, KeyIs(key, v))
  {
    var keep := KeyIs(key, v);
    FilterCons(head, rest, keep);
    FilterCons(head, tail, keep);
    var a, b := Filter(rest, keep), Filter(tail, keep);
    if key(x) == v {
      assert !keep(head);
      assert Filter([head] + rest, keep) == a;
      assert Filter([head] + tail, keep) == b;
    } else {
      assert a == b;
    }
  }

  /**
   Stability (ES2019 `Array.prototype.sort`): the elements sharing a key come
   out in the order they went in.
   */
  lemma {:induction false} SortIsStable<T>(xs: seq<T>, key: T -> real, v: real)
    ensures Filter(SortDescending(xs, key), KeyIs(key, v)) == Filter(xs, KeyIs(key, v))
  {
    if |xs| > 0 {
      var head, tail := xs[0], xs[1..];
      assert xs == [head] + tail;
      assert SortDescending(xs, key) == InsertDescending(head, SortDescending(tail, key), key);
      SortIsStable(tail, key, v);
      InsertStable(head, SortDescending(tail, key), key, v);
      FilterCons(head, tail, KeyIs(key, v));
    }
  }

  /** When every key is equal the sort keeps the input order. */
  lemma {:induction false} SortEqualKeysIdentity<T>(xs: seq<T>, key: T -> real, k: real)
    requires forall i :: 0 <= i < |xs| ==> key(xs[i]) == k
    ensures SortDescending(xs, key) == xs
  {
    if |xs| > 0 {
      SortEqualKeysIdentity(xs[1..], key, k);
      assert xs == [xs[0]] + xs[1..];
    }
  }

  /**
   Whatever is sliced off the front of a descending ranking outranks every
   element left behind.
   */
  lemma PrefixOutranksRest<T>(ranked: seq<T>, r: seq<T>, key: T -> real, x: T)
    requires Descending(ranked, key)
    requires r <= ranked
    requires x in ranked && x !in r
    ensures forall i :: 0 <= i < |r| ==> key(r[i]) >= key(x)
  {
    var j :| 0 <= j < |ranked| && ranked[j] == x;
    forall i | 0 <= i < |r|
      ensures key(r[i]) >= key(x)
    {
      assert r[i] == ranked[i];
    }
  }
}
