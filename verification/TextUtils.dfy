/**
 The small string helpers of lib/utils.ts: `truncate`, `isValidEmail`
 (the regular expression `^[^\s@]+@[^\s@]+\.[^\s@]+$` restated structurally)
 and `extractOrderId` (three regular expressions tried in order, the first
 match winning).
 */
module TextUtils {
  import opened JsBuiltins

  // ---------------------------------------------------------------------------
  // truncate
  // ---------------------------------------------------------------------------

  /** "...": three full stops, one code unit each. */
  const Ellipsis: seq<CodeUnit> := [0x2E, 0x2E, 0x2E]

  /**
   `truncate(text, maxLength)` on the UTF-16 code units a JavaScript string
   holds: `length` counts code units and `slice` cuts between them, so a cut
   may fall inside a surrogate pair.
   */
  function Truncate(text: seq<CodeUnit>, maxLength: int): (r: seq<CodeUnit>)
    ensures |text| <= maxLength ==> r == text
    ensures |text| > maxLength ==> |r| >= 3 && r[|r| - 3..] == Ellipsis && r[..|r| - 3] <= text
    ensures |text| > maxLength && maxLength >= 3 ==>
      |r| == maxLength && r[..maxLength - 3] == text[..maxLength - 3]
    // Below three code units the slice end is negative and counts back from
    // the end of the text, so the result is longer than `maxLength`.
    ensures |text| > maxLength && maxLength < 3 ==>
      |r| > maxLength && |r| == 3 + (if |text| + maxLength - 3 < 0 then 0 else |text| + maxLength - 3)
  {
    if |text| <= maxLength then text
    else SlicePrefix(text, maxLength - 3) + Ellipsis
  }

  /** For `maxLength >= 3` truncating twice is the same as truncating once. */
  lemma TruncateIdempotent(text: seq<CodeUnit>, maxLength: int)
    requires maxLength >= 3
    ensures Truncate(Truncate(text, maxLength), maxLength) == Truncate(text, maxLength)
  {
  }

  /**
   On a text without astral characters, code units and characters coincide:
   a text of at most `maxLength` characters is kept, and a longer one keeps
   its first `maxLength - 3` characters followed by "...".
   */
  lemma TruncateBmpText(text: string, maxLength: int)
    requires forall i :: 0 <= i < |text| ==> !IsAstral(text[i])
    ensures |text| <= maxLength ==> Truncate(Utf16(text), maxLength) == Utf16(text)
    ensures |text| > maxLength >= 3 ==>
      Truncate(Utf16(text), maxLength) == Utf16(text[..maxLength - 3] + "...")
  {
    BmpLength(text);
    assert |Utf16(text)| == |text|;
    if |text| > maxLength >= 3 {
      var kept := text[..maxLength - 3];
      BmpPrefix(text, maxLength - 3);
      assert Truncate(Utf16(text), maxLength) == Utf16(text)[..maxLength - 3] + Ellipsis;
      EllipsisUnits();
      Utf16Append(kept, "...");
      assert Utf16(kept + "...") == Utf16(kept) + Ellipsis;
    }
  }

  lemma EllipsisUnits()
    ensures Utf16("...") == Ellipsis
  {
  }

  /**
   Each astral character counts as two: three emoji are six code units, so
   with room for five the text is cut after the first emoji.
   */
  lemma TruncateCountsCodeUnits()
    ensures Truncate(Utf16("\U{1F600}\U{1F600}\U{1F600}"), 5) == Utf16("\U{1F600}...")
  {
    var smile := Utf16("\U{1F600}");
    assert smile == [0xD83D, 0xDE00];
    assert Utf16("\U{1F600}\U{1F600}\U{1F600}") == smile + smile + smile;
    assert Utf16("\U{1F600}...") == smile + Ellipsis;
  }

  // ---------------------------------------------------------------------------
  // isValidEmail
  // ---------------------------------------------------------------------------

  /** A character allowed by `[^\s@]`. */
  predicate Plain(c: char)
  {
    !IsWhitespace(c) && c != '@'
  }

  /** `s[lo..hi]` is matched by `[^\s@]*`. */
  ghost predicate PlainBetween(s: string, lo: int, hi: int)
  {
    forall i :: lo <= i < hi && 0 <= i < |s| ==> Plain(s[i])
  }

  /** The index of the first `c` in `s`, or `|s|` when there is none. */
  function IndexOf(s: string, c: char): (i: nat)
    ensures i <= |s|
    ensures i < |s| ==> s[i] == c
    ensures forall j :: 0 <= j < i ==> s[j] != c
  {
    if |s| == 0 then 0
    else if s[0] == c then 0
    else 1 + IndexOf(s[1..], c)
  }

  /** A `.` with at least one character on either side of it. */
  predicate HasInnerDot(domain: string)
  {
    exists j :: 0 < j < |domain| - 1 && domain[j] == '.'
  }

  /**
   `isValidEmail`: no whitespace, exactly one `@`, a non-empty part before it,
   and after it a `.` with text on both sides.
   */
  predicate IsValidEmail(email: string)
  {
    && (forall i :: 0 <= i < |email| ==> !IsWhitespace(email[i]))
    && CountChar(email, '@') == 1
    && var at := IndexOf(email, '@');
       at > 0 && HasInnerDot(email[at + 1..])
  }

  /**
   The regular expression read literally: a `[^\s@]+` local part, `@`, a
   `[^\s@]+` domain label part, `.`, and a `[^\s@]+` tail.
   */
  ghost predicate MatchesEmailRegex(email: string)
  {
    exists a, b ::
      0 < a && a + 1 < b && b + 1 < |email|
      && email[a] == '@' && email[b] == '.'
      && PlainBetween(email, 0, a) && PlainBetween(email, a + 1, b) && PlainBetween(email, b + 1, |email|)
  }

  lemma {:induction false} CountCharOne(s: string, c: char, a: nat)
    requires a < |s| && s[a] == c
    requires forall i :: 0 <= i < |s| && i != a ==> s[i] != c
    ensures CountChar(s, c) == 1
  {
    if a == 0 {
      assert c !in s[1..];
    } else {
      assert s[0] != c;
      CountCharOne(s[1..], c, a - 1);
    }
  }

  lemma {:induction false} CountCharTwo(s: string, c: char, a: nat, b: nat)
    requires a < b < |s| && s[a] == c && s[b] == c
    ensures CountChar(s, c) >= 2
  {
    if a == 0 {
      assert s[1..][b - 1] == c;
    } else {
      CountCharTwo(s[1..], c, a - 1, b - 1);
    }
  }

  lemma ValidEmailMatchesRegex(email: string)
    requires IsValidEmail(email)
    ensures MatchesEmailRegex(email)
  {
    var a := IndexOf(email, '@');
    var domain := email[a + 1..];
    var j :| 0 < j < |domain| - 1 && domain[j] == '.';
    var b := a + 1 + j;
    forall i | 0 <= i < |email| && i != a
      ensures email[i] != '@'
    {
      if email[i] == '@' {
        CountCharTwo(email, '@', a, i);
      }
    }
    assert email[b] == '.';
  }

  lemma RegexMatchIsValidEmail(email: string)
    requires MatchesEmailRegex(email)
    ensures IsValidEmail(email)
  {
    var a, b :| 0 < a && a + 1 < b && b + 1 < |email|
      && email[a] == '@' && email[b] == '.'
      && PlainBetween(email, 0, a) && PlainBetween(email, a + 1, b) && PlainBetween(email, b + 1, |email|);
    assert forall i :: 0 <= i < |email| && i != a ==> Plain(email[i]);
    CountCharOne(email, '@', a);
    assert IndexOf(email, '@') == a;
    assert email[a + 1..][b - a - 1] == '.';
  }

  /** The structural check accepts exactly the strings the regular expression matches. */
  lemma EmailCheckMatchesRegex(email: string)
    ensures IsValidEmail(email) <==> MatchesEmailRegex(email)
  {
    if IsValidEmail(email) {
      ValidEmailMatchesRegex(email);
    }
    if MatchesEmailRegex(email) {
      RegexMatchIsValidEmail(email);
    }
  }

  // ---------------------------------------------------------------------------
  // extractOrderId
  // ---------------------------------------------------------------------------

  /** Length of the run of digits starting at `i` (what a greedy `\d+` consumes). */
  function DigitRunLength(s: string, i: nat): (n: nat)
    ensures i + n <= |s| || n == 0
    ensures forall k :: i <= k < i + n ==> IsDigit(s[k])
    ensures i + n < |s| ==> !IsDigit(s[i + n])
    decreases |s| - i
  {
    if i >= |s| || !IsDigit(s[i]) then 0 else 1 + DigitRunLength(s, i + 1)
  }

  function DigitRun(s: string, i: nat): (d: string)
    ensures forall k :: 0 <= k < |d| ==> IsDigit(d[k])
  {
    if i >= |s| then "" else s[i..i + DigitRunLength(s, i)]
  }

  /** `/#(\d{4,})/` matches at `i`. */
  predicate HashMatchAt(s: string, i: nat)
  {
    i < |s| && s[i] == '#' && DigitRunLength(s, i + 1) >= 4
  }

  /** Where the digits start after the word `order` at `i`: `[- ]?` is greedy. */
  function OrderDigitsStart(s: string, i: nat): nat
  {
    if i + 5 < |s| && (s[i + 5] == '-' || s[i + 5] == ' ') then i + 6 else i + 5
  }

  /** `/ORDER[- ]?(\d{4,})/i` matches at `i` (ASCII case-insensitive). */
  predicate OrderMatchAt(s: string, i: nat)
  {
    i + 5 <= |s| && ToLower(s[i..i + 5]) == "order" && DigitRunLength(s, OrderDigitsStart(s, i)) >= 4
  }

  /** `/\b(\d{8,})\b/` matches at `i`: a whole word of at least eight digits. */
  predicate LongNumberAt(s: string, i: nat)
  {
    var n := DigitRunLength(s, i);
    i < |s| && (i == 0 || !IsWordChar(s[i - 1])) && n >= 8
    && (i + n == |s| || !IsWordChar(s[i + n]))
  }

  /** The three order-number patterns, in the order they are tried. */
  datatype Pattern = HashPattern | OrderPattern | LongNumberPattern

  predicate MatchAt(p: Pattern, s: string, i: nat)
  {
    match p
    case HashPattern => HashMatchAt(s, i)
    case OrderPattern => OrderMatchAt(s, i)
    case LongNumberPattern => LongNumberAt(s, i)
  }

  /** What the pattern captures when it matches at `i`. */
  function Capture(p: Pattern, s: string, i: nat): string
  {
    match p
    case HashPattern => DigitRun(s, i + 1)
    case OrderPattern => DigitRun(s, OrderDigitsStart(s, i))
    case LongNumberPattern => DigitRun(s, i)
  }

  /** The leftmost index at or after `from` where `p` matches (`String.prototype.match`). */
  function FirstMatch(p: Pattern, s: string, from: nat): (r: Option<nat>)
    ensures r.Some? ==>
      (from <= r.value < |s| && MatchAt(p, s, r.value)
       && forall j :: from <= j < r.value ==> !MatchAt(p, s, j))
    ensures r.None? ==> forall j: nat :: from <= j ==> !MatchAt(p, s, j)
    decreases |s| - from
  {
    if from >= |s| then None
    else if MatchAt(p, s, from) then Some(from)
    else FirstMatch(p, s, from + 1)
  }

  /** `i` is where `String.prototype.match` reports a match of `p` in `s`. */
  ghost predicate LeftmostMatch(p: Pattern, s: string, i: nat)
  {
    MatchAt(p, s, i) && forall j: nat :: j < i ==> !MatchAt(p, s, j)
  }

  ghost predicate NoMatch(p: Pattern, s: string)
  {
    forall j: nat :: !MatchAt(p, s, j)
  }

  /** The scan from the start finds the leftmost match, and finds none exactly when there is none. */
  lemma FirstMatchIsLeftmost(p: Pattern, s: string)
    ensures FirstMatch(p, s, 0).Some? ==> LeftmostMatch(p, s, FirstMatch(p, s, 0).value)
    ensures FirstMatch(p, s, 0).None? <==> NoMatch(p, s)
    ensures forall i: nat :: LeftmostMatch(p, s, i) ==> FirstMatch(p, s, 0) == Some(i)
  {
    var r := FirstMatch(p, s, 0);
    forall i: nat | LeftmostMatch(p, s, i)
      ensures r == Some(i)
    {
      assert MatchAt(p, s, i);
      assert r.Some?;
      assert MatchAt(p, s, r.value);
      assert !(r.value < i) && !(i < r.value);
    }
  }

  /** What a successful pattern captures is a run of at least four digits. */
  lemma CaptureIsDigits(p: Pattern, s: string, i: nat)
    requires MatchAt(p, s, i)
    ensures |Capture(p, s, i)| >= 4
    ensures forall k :: 0 <= k < |Capture(p, s, i)| ==> IsDigit(Capture(p, s, i)[k])
  {
  }

  /** `extractOrderId(message)`: `None` stands for `null`. */
  function ExtractOrderId(message: string): (r: Option<string>)
    ensures r.Some? ==> |r.value| >= 4 && forall k :: 0 <= k < |r.value| ==> IsDigit(r.value[k])
    // `#digits` wins whenever it matches anywhere; the leftmost match counts.
    ensures forall i: nat :: LeftmostMatch(HashPattern, message, i) ==>
      r == Some(Capture(HashPattern, message, i))
    // `ORDER digits` is tried only when `#digits` matches nowhere.
    ensures NoMatch(HashPattern, message) ==>
      forall i: nat :: LeftmostMatch(OrderPattern, message, i) ==>
        r == Some(Capture(OrderPattern, message, i))
    // A long stand-alone number is tried only when neither of the others matches.
    ensures NoMatch(HashPattern, message) && NoMatch(OrderPattern, message) ==>
      forall i: nat :: LeftmostMatch(LongNumberPattern, message, i) ==>
        r == Some(Capture(LongNumberPattern, message, i))
    ensures r.None? <==>
      NoMatch(HashPattern, message) && NoMatch(OrderPattern, message) && NoMatch(LongNumberPattern, message)
  {
    FirstMatchIsLeftmost(HashPattern, message);
    FirstMatchIsLeftmost(OrderPattern, message);
    FirstMatchIsLeftmost(LongNumberPattern, message);
    match FirstMatch(HashPattern, message, 0)
    case Some(i) => CaptureIsDigits(HashPattern, message, i); Some(Capture(HashPattern, message, i))
    case None =>
      match FirstMatch(OrderPattern, message, 0)
      case Some(i) => CaptureIsDigits(OrderPattern, message, i); Some(Capture(OrderPattern, message, i))
      case None =>
        match FirstMatch(LongNumberPattern, message, 0)
        case Some(i) => CaptureIsDigits(LongNumberPattern, message, i); Some(Capture(LongNumberPattern, message, i))
        case None => None
  }
}
